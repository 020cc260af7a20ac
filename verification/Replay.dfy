/** From changes to rows and back to books: what `src/tape/bake/interpret.py` emits and
    `src/tape/store/catalog.py` replays. */
module Replay {
  import opened Prelude
  import opened OrderBook
  import Bus

  datatype Change =
    | Delta(ticker: Ticker, conn: Key, sid: Key, side: Side, price: Price, delta: int)
    | Snapshot(ticker: Ticker, conn: Key, sid: Key, bids: seq<Level>, asks: seq<Level>)
    | Gap(conn: Key, sid: Key)

  /** A change with its receipt. A row of `deltas` or `gaps` is one of these; a snapshot is several rows. */
  datatype Event = Event(wall: int, mono: int, seqNo: int, change: Change)

  /** What the rows of one snapshot share. */
  datatype Stamp = Stamp(ticker: Ticker, wall: int, conn: Key, sid: Key, seqNo: int)

  datatype Cell = BidCell | AskCell | EmptyCell
  datatype Row = Row(stamp: Stamp, mono: int, cell: Cell, price: Price, count: int)

  // ------------------------------------------------------------------ replaying

  /** Books, and the subscription each market last heard from. */
  datatype State = State(books: Bus.Books, heard: map<Ticker, (Key, Key)>)

  /** `_apply`. */
  ghost function Applied(s: State, c: Change): State {
    match c
    case Gap(conn, sid) =>
      s.(books := map t | t in s.books ::
        if t in s.heard && s.heard[t] == (conn, sid) then s.books[t].(stale := true) else s.books[t])
    case Delta(t, conn, sid, side, price, delta) =>
      State(s.books[t := AfterDelta(Bus.BookOf(s.books, t), side, price, delta)], s.heard[t := (conn, sid)])
    case Snapshot(t, conn, sid, bids, asks) =>
      State(s.books[t := AfterSnapshot(Bus.BookOf(s.books, t), bids, asks)], s.heard[t := (conn, sid)])
  }

  ghost function AppliedAll(s: State, es: seq<Event>): State {
    if es == [] then s else Applied(AppliedAll(s, es[..|es| - 1]), es[|es| - 1].change)
  }

  /** What one change does to one market's book: a delta or snapshot of the market is applied to it and makes its
      subscription the one last heard; a gap makes it stale if that is the gap's; nothing else touches it. */
  lemma AppliedMeans(s: State, c: Change, t: Ticker)
    ensures var n := Applied(s, c);
            match c
            case Gap(conn, sid) =>
              && n.heard == s.heard && (t in n.books <==> t in s.books)
              && (t in s.books ==> n.books[t].levels == s.books[t].levels)
              && (t in s.books ==>
                  n.books[t].stale == (s.books[t].stale || (t in s.heard && s.heard[t] == (conn, sid))))
            case Delta(u, conn, sid, side, price, delta) =>
              if t != u then SameFor(s, n, t)
              else n.heard[t] == (conn, sid) && t in n.books
                   && n.books[t] == AfterDelta(if t in s.books then s.books[t] else EMPTY_BOOK, side, price, delta)
            case Snapshot(u, conn, sid, bids, asks) =>
              if t != u then SameFor(s, n, t)
              else n.heard[t] == (conn, sid) && t in n.books
                   && n.books[t] == AfterSnapshot(if t in s.books then s.books[t] else EMPTY_BOOK, bids, asks)
  {
  }

  ghost predicate SameFor(s: State, n: State, t: Ticker) {
    && (t in n.books <==> t in s.books) && (t in s.books ==> n.books[t] == s.books[t])
    && (t in n.heard <==> t in s.heard) && (t in s.heard ==> n.heard[t] == s.heard[t])
  }

  /** A gap goes before the frame that revealed it. */
  function Order(e: Event): int {
    if e.change.Gap? then 0 else 1
  }

  predicate Earlier(a: Event, b: Event) {
    a.mono < b.mono || (a.mono == b.mono && Order(a) < Order(b))
  }

  function Placed(x: Event, es: seq<Event>): seq<Event> {
    if es == [] then [x]
    else if !Earlier(x, es[|es| - 1]) then es + [x]
    else Placed(x, es[..|es| - 1]) + [es[|es| - 1]]
  }

  /** The events in the order they are applied, when no restart of the monotonic clock is detected. */
  function InOrder(es: seq<Event>): seq<Event> {
    if es == [] then [] else Placed(es[|es| - 1], InOrder(es[..|es| - 1]))
  }

  // ------------------------------------------------------------------ exploding snapshots

  function StampOf(e: Event): Stamp
    requires e.change.Snapshot?
  {
    Stamp(e.change.ticker, e.wall, e.change.conn, e.change.sid, e.seqNo)
  }

  function CellRows(s: Stamp, mono: int, cell: Cell, ls: seq<Level>): seq<Row> {
    if ls == [] then [] else
      CellRows(s, mono, cell, ls[..|ls| - 1]) + [Row(s, mono, cell, ls[|ls| - 1].price, ls[|ls| - 1].count)]
  }

  function SideRows(e: Event): seq<Row>
    requires e.change.Snapshot?
  {
    CellRows(StampOf(e), e.mono, BidCell, e.change.bids) + CellRows(StampOf(e), e.mono, AskCell, e.change.asks)
  }

  function RowsOf(e: Event): (r: seq<Row>)
    requires e.change.Snapshot?
    ensures r != []
  {
    var rows := SideRows(e);
    if rows == [] then [Row(StampOf(e), e.mono, EmptyCell, Key(0), 0)] else rows
  }

  function SnapshotRows(es: seq<Event>): seq<Row> {
    if es == [] then [] else
      SnapshotRows(es[..|es| - 1]) + (if es[|es| - 1].change.Snapshot? then RowsOf(es[|es| - 1]) else [])
  }

  function Deltas(es: seq<Event>): seq<Event> {
    if es == [] then [] else Deltas(es[..|es| - 1]) + (if es[|es| - 1].change.Delta? then [es[|es| - 1]] else [])
  }

  function Gaps(es: seq<Event>): seq<Event> {
    if es == [] then [] else Gaps(es[..|es| - 1]) + (if es[|es| - 1].change.Gap? then [es[|es| - 1]] else [])
  }

  // ------------------------------------------------------------------ regrouping

  function LevelsOf(rows: seq<Row>, cell: Cell): seq<Level> {
    if rows == [] then [] else
      LevelsOf(rows[..|rows| - 1], cell)
          + (if rows[|rows| - 1].cell == cell then [Level(rows[|rows| - 1].price, rows[|rows| - 1].count)] else [])
  }

  /** The snapshot some rows with one stamp stand for. */
  function EventOf(rows: seq<Row>): Event
    requires rows != []
  {
    var s := rows[0].stamp;
    Event(s.wall, rows[0].mono, s.seqNo,
        Snapshot(s.ticker, s.conn, s.sid, LevelsOf(rows, BidCell), LevelsOf(rows, AskCell)))
  }

  /** Rows with equal stamps stand together: what sorting by stamp gives. */
  ghost predicate Together(rows: seq<Row>) {
    forall i, j, k :: 0 <= i < j < k < |rows| && rows[i].stamp == rows[k].stamp ==> rows[j].stamp == rows[i].stamp
  }

  /** The rows with one stamp. */
  function WithStamp(rows: seq<Row>, s: Stamp): seq<Row> {
    if rows == [] then [] else
      WithStamp(rows[..|rows| - 1], s) + (if rows[|rows| - 1].stamp == s then [rows[|rows| - 1]] else [])
  }

  lemma {:induction false} WithStampJoin(a: seq<Row>, b: seq<Row>, s: Stamp)
    ensures WithStamp(a + b, s) == WithStamp(a, s) + WithStamp(b, s)
  {
    if b == [] {
      assert a + b == a;
    } else {
      WithStampJoin(a, b[..|b| - 1], s);
      assert (a + b)[..|a + b| - 1] == a + b[..|b| - 1];
    }
  }

  lemma {:induction false} WithStampAll(rows: seq<Row>, s: Stamp)
    requires forall i :: 0 <= i < |rows| ==> rows[i].stamp == s
    ensures WithStamp(rows, s) == rows
  {
    if rows != [] {
      WithStampAll(rows[..|rows| - 1], s);
      assert rows == rows[..|rows| - 1] + [rows[|rows| - 1]];
    }
  }

  lemma {:induction false} WithStampNone(rows: seq<Row>, s: Stamp)
    requires forall i :: 0 <= i < |rows| ==> rows[i].stamp != s
    ensures WithStamp(rows, s) == []
  {
    if rows != [] { WithStampNone(rows[..|rows| - 1], s); }
  }

  ghost predicate DistinctStamps(es: seq<Event>) {
    forall i, j ::
        0 <= i < j < |es| && es[i].change.Snapshot? && es[j].change.Snapshot? ==> StampOf(es[i]) != StampOf(es[j])
  }

  /** Each event is a snapshot made of all the rows with its stamp. */
  ghost predicate WholeGroups(rows: seq<Row>, es: seq<Event>) {
    forall i :: 0 <= i < |es| ==>
      es[i].change.Snapshot? && WithStamp(rows, StampOf(es[i])) != []
      && es[i] == EventOf(WithStamp(rows, StampOf(es[i])))
  }

  ghost predicate HasStamp(es: seq<Event>, s: Stamp) {
    exists i :: 0 <= i < |es| && es[i].change.Snapshot? && StampOf(es[i]) == s
  }

  /** One event per stamp among the first `n` rows, which hold every row of those stamps. */
  ghost predicate RegroupedUpTo(rows: seq<Row>, es: seq<Event>, n: nat)
    requires n <= |rows|
  {
    && WholeGroups(rows, es) && DistinctStamps(es)
    && (forall k :: n <= k < |rows| ==> !HasStamp(es, rows[k].stamp))
    && (forall k :: 0 <= k < n ==> HasStamp(es, rows[k].stamp))
  }

  ghost predicate Regrouped(rows: seq<Row>, es: seq<Event>) {
    RegroupedUpTo(rows, es, |rows|)
  }

  lemma OnlyTheMiddle(a: seq<Row>, b: seq<Row>, c: seq<Row>, s: Stamp)
    requires forall i :: 0 <= i < |a| ==> a[i].stamp != s
    requires forall i :: 0 <= i < |b| ==> b[i].stamp == s
    requires forall i :: 0 <= i < |c| ==> c[i].stamp != s
    ensures WithStamp(a + (b + c), s) == b
  {
    WithStampJoin(a, b + c, s);
    WithStampJoin(b, c, s);
    WithStampNone(a, s);
    WithStampAll(b, s);
    WithStampNone(c, s);
  }

  lemma NoneAfter(rows: seq<Row>, from: nat, to: nat, s: Stamp, k: nat)
    requires from < to <= k < |rows| && Together(rows) && rows[from].stamp == s && rows[to].stamp != s
    ensures rows[k].stamp != s
  {
  }

  /** A whole run of equal stamps is all there is of that stamp. */
  lemma RunIsAll(rows: seq<Row>, from: nat, to: nat, s: Stamp)
    requires from < to <= |rows| && Together(rows)
    requires forall k :: from <= k < to ==> rows[k].stamp == s
    requires to < |rows| ==> rows[to].stamp != s
    requires forall k :: 0 <= k < from ==> rows[k].stamp != s
    ensures WithStamp(rows, s) == rows[from..to]
    ensures forall k :: to <= k < |rows| ==> rows[k].stamp != s
  {
    forall k | to <= k < |rows| ensures rows[k].stamp != s { NoneAfter(rows, from, to, s, k); }
    assert rows == rows[..from] + (rows[from..to] + rows[to..]);
    OnlyTheMiddle(rows[..from], rows[from..to], rows[to..], s);
  }

  /** The order of the sort keys: market, wall time, connection, subscription, sequence number. */
  predicate StampBefore(a: Stamp, b: Stamp) {
    if a.ticker != b.ticker then a.ticker.rank < b.ticker.rank
    else if a.wall != b.wall then a.wall < b.wall
    else if a.conn != b.conn then a.conn.rank < b.conn.rank
    else if a.sid != b.sid then a.sid.rank < b.sid.rank
    else a.seqNo < b.seqNo
  }

  function RowPlaced(x: Row, rows: seq<Row>): seq<Row> {
    if rows == [] || !StampBefore(x.stamp, rows[|rows| - 1].stamp) then rows + [x]
    else RowPlaced(x, rows[..|rows| - 1]) + [rows[|rows| - 1]]
  }

  /** The table sorted by stamp. */
  function ByStamp(rows: seq<Row>): seq<Row> {
    if rows == [] then [] else RowPlaced(rows[|rows| - 1], ByStamp(rows[..|rows| - 1]))
  }

  ghost predicate StampsAscend(rows: seq<Row>) {
    forall i, j :: 0 <= i < j < |rows| ==> !StampBefore(rows[j].stamp, rows[i].stamp)
  }

  lemma {:induction false} RowPlacedKeeps(x: Row, rows: seq<Row>)
    requires StampsAscend(rows)
    ensures StampsAscend(RowPlaced(x, rows))
    ensures forall y :: y in RowPlaced(x, rows) ==> y == x || y in rows
  {
    if rows != [] && StampBefore(x.stamp, rows[|rows| - 1].stamp) {
      var init, last := rows[..|rows| - 1], rows[|rows| - 1];
      RowPlacedKeeps(x, init);
      var front := RowPlaced(x, init);
      assert rows == init + [last];
      forall i | 0 <= i < |front| ensures !StampBefore(last.stamp, front[i].stamp) {
        assert front[i] in front;
        if front[i] != x { NotBeforeLast(rows, front[i]); }
      }
    }
  }

  lemma {:induction false} RowPlacedCounts(x: Row, rows: seq<Row>)
    ensures multiset(RowPlaced(x, rows)) == multiset(rows) + multiset{x}
  {
    if rows != [] {
      RowPlacedCounts(x, rows[..|rows| - 1]);
      assert rows == rows[..|rows| - 1] + [rows[|rows| - 1]];
    }
  }

  lemma NotBeforeLast(rows: seq<Row>, y: Row)
    requires rows != [] && StampsAscend(rows) && y in rows[..|rows| - 1]
    ensures !StampBefore(rows[|rows| - 1].stamp, y.stamp)
  {
    var i :| 0 <= i < |rows| - 1 && rows[i] == y;
  }

  lemma {:induction false} ByStampSorts(rows: seq<Row>)
    ensures StampsAscend(ByStamp(rows)) && multiset(ByStamp(rows)) == multiset(rows)
  {
    if rows != [] {
      ByStampSorts(rows[..|rows| - 1]);
      RowPlacedKeeps(rows[|rows| - 1], ByStamp(rows[..|rows| - 1]));
      RowPlacedCounts(rows[|rows| - 1], ByStamp(rows[..|rows| - 1]));
      assert rows == rows[..|rows| - 1] + [rows[|rows| - 1]];
    }
  }

  lemma SortedStandTogether(rows: seq<Row>)
    requires StampsAscend(rows)
    ensures Together(rows)
  {
    forall i, j, k | 0 <= i < j < k < |rows| && rows[i].stamp == rows[k].stamp ensures rows[j].stamp == rows[i].stamp {
      assert !StampBefore(rows[j].stamp, rows[i].stamp) && !StampBefore(rows[k].stamp, rows[j].stamp);
    }
  }

  /** `_snapshot_events`: rows in any order are sorted by stamp; a run ends where the next row has another stamp,
      or none follows. */
  method SnapshotEvents(rows: seq<Row>) returns (es: seq<Event>)
    ensures Regrouped(ByStamp(rows), es) && multiset(ByStamp(rows)) == multiset(rows)
  {
    ByStampSorts(rows);
    SortedStandTogether(ByStamp(rows));
    es := GroupRuns(ByStamp(rows));
  }

  method GroupRuns(rows: seq<Row>) returns (es: seq<Event>)
    requires Together(rows)
    ensures Regrouped(rows, es)
  {
    es := [];
    if rows == [] { return; }
    var start := 0;
    for index := 1 to |rows| + 1
      invariant start < index && start <= |rows| && (index <= |rows| ==> start < |rows|)
                && (index == |rows| + 1 ==> start == |rows|)
      invariant forall k :: start <= k < index && k < |rows| ==> rows[k].stamp == rows[start].stamp
      invariant RegroupedUpTo(rows, es, start)
    {
      if index < |rows| && rows[index].stamp == rows[start].stamp { continue; }
      var s := rows[start].stamp;
      ghost var before := es;
      assert !HasStamp(before, s);
      RunIsAll(rows, start, index, s);
      es := es + [EventOf(rows[start..index])];
      OneMoreGroup(rows, before, start, index);
      start := index;
    }
  }

  lemma HasStampSnoc(es: seq<Event>, e: Event, s: Stamp)
    requires e.change.Snapshot?
    ensures HasStamp(es + [e], s) <==> HasStamp(es, s) || StampOf(e) == s
  {
    var more := es + [e];
    if HasStamp(es, s) {
      var i :| 0 <= i < |es| && es[i].change.Snapshot? && StampOf(es[i]) == s;
      assert more[i] == es[i];
    }
    if StampOf(e) == s { assert StampOf(more[|es|]) == s; }
  }

  lemma DistinctSnoc(es: seq<Event>, e: Event)
    requires DistinctStamps(es) && e.change.Snapshot? && !HasStamp(es, StampOf(e))
    ensures DistinctStamps(es + [e])
  {
  }

  lemma OneMoreGroup(rows: seq<Row>, es: seq<Event>, start: nat, index: nat)
    requires start < index <= |rows| && RegroupedUpTo(rows, es, start)
    requires forall k :: start <= k < index ==> rows[k].stamp == rows[start].stamp
    requires WithStamp(rows, rows[start].stamp) == rows[start..index]
    requires forall k :: index <= k < |rows| ==> rows[k].stamp != rows[start].stamp
    ensures RegroupedUpTo(rows, es + [EventOf(rows[start..index])], index)
  {
    var e := EventOf(rows[start..index]);
    assert StampOf(e) == rows[start].stamp;
    DistinctSnoc(es, e);
    forall k | 0 <= k < |rows|
      ensures HasStamp(es + [e], rows[k].stamp) <==> HasStamp(es, rows[k].stamp) || StampOf(e) == rows[k].stamp
    {
      HasStampSnoc(es, e, rows[k].stamp);
    }
  }

  // ------------------------------------------------------------------ rows in any order

  lemma {:induction false} WithStampCount(rows: seq<Row>, s: Stamp, r: Row)
    ensures multiset(WithStamp(rows, s))[r] == if r.stamp == s then multiset(rows)[r] else 0
  {
    if rows != [] {
      var init, last := rows[..|rows| - 1], rows[|rows| - 1];
      WithStampCount(init, s, r);
      assert rows == init + [last];
      CountSnoc(init, last, r);
      if last.stamp == s {
        CountSnoc(WithStamp(init, s), last, r);
      } else {
        assert WithStamp(rows, s) == WithStamp(init, s);
      }
    }
  }

  /** The rows of one snapshot: one stamp and one receipt. */
  ghost predicate OneReceipt(rows: seq<Row>, s: Stamp, mono: int) {
    forall i :: 0 <= i < |rows| ==> rows[i].stamp == s && rows[i].mono == mono
  }

  lemma {:induction false} LevelsCount(rows: seq<Row>, s: Stamp, mono: int, cell: Cell, l: Level)
    requires OneReceipt(rows, s, mono)
    ensures multiset(LevelsOf(rows, cell))[l] == multiset(rows)[Row(s, mono, cell, l.price, l.count)]
  {
    if rows != [] {
      var init, last := rows[..|rows| - 1], rows[|rows| - 1];
      LevelsCount(init, s, mono, cell, l);
      assert rows == init + [last];
      CountSnoc(init, last, Row(s, mono, cell, l.price, l.count));
      if last.cell == cell {
        CountSnoc(LevelsOf(init, cell), Level(last.price, last.count), l);
      } else {
        assert LevelsOf(rows, cell) == LevelsOf(init, cell);
      }
    }
  }

  /** A book does not care in what order a snapshot lists its levels. */
  lemma ShuffledSnapshot(b: BookState, bids: seq<Level>, asks: seq<Level>, bids': seq<Level>, asks': seq<Level>)
    requires Shuffled(bids, bids') && Shuffled(asks, asks')
    ensures AfterSnapshot(b, bids', asks') == AfterSnapshot(b, bids, asks)
  {
    ShuffledSide(bids, bids');
    ShuffledSide(asks, asks');
  }

  // ------------------------------------------------------------------ what the rows of a run are

  lemma {:induction false} CellRowsLevels(s: Stamp, mono: int, cell: Cell, ls: seq<Level>, other: Cell)
    ensures LevelsOf(CellRows(s, mono, cell, ls), other) == if other == cell then ls else []
    ensures OneReceipt(CellRows(s, mono, cell, ls), s, mono)
  {
    if ls != [] {
      var init, last := ls[..|ls| - 1], ls[|ls| - 1];
      CellRowsLevels(s, mono, cell, init, other);
      LevelsSnoc(CellRows(s, mono, cell, init), Row(s, mono, cell, last.price, last.count), other);
      assert ls == init + [last] && last == Level(last.price, last.count);
    }
  }

  lemma LevelsSnoc(rows: seq<Row>, r: Row, cell: Cell)
    ensures LevelsOf(rows + [r], cell) ==
            LevelsOf(rows, cell) + (if r.cell == cell then [Level(r.price, r.count)] else [])
  {
    assert (rows + [r])[..|rows|] == rows;
  }

  lemma {:induction false} LevelsJoin(a: seq<Row>, b: seq<Row>, cell: Cell)
    ensures LevelsOf(a + b, cell) == LevelsOf(a, cell) + LevelsOf(b, cell)
  {
    if b == [] {
      assert a + b == a;
    } else {
      var init, last := b[..|b| - 1], b[|b| - 1];
      LevelsJoin(a, init, cell);
      assert a + b == (a + init) + [last] && b == init + [last];
      LevelsSnoc(a + init, last, cell);
      LevelsSnoc(init, last, cell);
      Join(LevelsOf(a, cell), LevelsOf(init, cell), if last.cell == cell then [Level(last.price, last.count)] else []);
    }
  }

  lemma SideRowsLevels(e: Event)
    requires e.change.Snapshot?
    ensures LevelsOf(SideRows(e), BidCell) == e.change.bids && LevelsOf(SideRows(e), AskCell) == e.change.asks
    ensures OneReceipt(SideRows(e), StampOf(e), e.mono)
  {
    var s := StampOf(e);
    var bids, asks := CellRows(s, e.mono, BidCell, e.change.bids), CellRows(s, e.mono, AskCell, e.change.asks);
    CellRowsLevels(s, e.mono, BidCell, e.change.bids, BidCell);
    CellRowsLevels(s, e.mono, BidCell, e.change.bids, AskCell);
    CellRowsLevels(s, e.mono, AskCell, e.change.asks, BidCell);
    CellRowsLevels(s, e.mono, AskCell, e.change.asks, AskCell);
    LevelsJoin(bids, asks, BidCell);
    LevelsJoin(bids, asks, AskCell);
  }

  lemma EmptyCellHasNoLevel(r: Row, cell: Cell)
    requires r.cell.EmptyCell? && !cell.EmptyCell?
    ensures LevelsOf([r], cell) == []
  {
    assert [r][..0] == [];
  }

  lemma RowsLevels(e: Event)
    requires e.change.Snapshot?
    ensures LevelsOf(RowsOf(e), BidCell) == e.change.bids && LevelsOf(RowsOf(e), AskCell) == e.change.asks
    ensures OneReceipt(RowsOf(e), StampOf(e), e.mono)
  {
    SideRowsLevels(e);
    if SideRows(e) == [] {
      var empty := Row(StampOf(e), e.mono, EmptyCell, Key(0), 0);
      EmptyCellHasNoLevel(empty, BidCell);
      EmptyCellHasNoLevel(empty, AskCell);
    }
  }

  /** A snapshot's rows give it back, an empty book's too. */
  lemma RowsRoundTrip(e: Event)
    requires e.change.Snapshot?
    ensures OneReceipt(RowsOf(e), StampOf(e), e.mono) && EventOf(RowsOf(e)) == e
  {
    RowsLevels(e);
  }

  /** Every row belongs to a snapshot of the run. */
  lemma {:induction false} RowsHaveSnapshots(es: seq<Event>, r: Row)
    requires r in SnapshotRows(es)
    ensures exists k :: 0 <= k < |es| && es[k].change.Snapshot? && r in RowsOf(es[k])
  {
    var init, last := es[..|es| - 1], es[|es| - 1];
    if last.change.Snapshot? && r in RowsOf(last) {
      assert es[|es| - 1] == last;
    } else {
      RowsHaveSnapshots(init, r);
      var k :| 0 <= k < |init| && init[k].change.Snapshot? && r in RowsOf(init[k]);
      assert es[k] == init[k];
    }
  }

  lemma RowsStamped(e: Event, s: Stamp)
    requires e.change.Snapshot?
    ensures WithStamp(RowsOf(e), s) == if s == StampOf(e) then RowsOf(e) else []
  {
    RowsRoundTrip(e);
    if s == StampOf(e) { WithStampAll(RowsOf(e), s); } else { WithStampNone(RowsOf(e), s); }
  }

  lemma RowsSnoc(es: seq<Event>, s: Stamp)
    requires es != []
    ensures var last := es[|es| - 1];
            WithStamp(SnapshotRows(es), s) ==
            WithStamp(SnapshotRows(es[..|es| - 1]), s)
                + (if last.change.Snapshot? && StampOf(last) == s then RowsOf(last) else [])
  {
    var init, last := es[..|es| - 1], es[|es| - 1];
    if last.change.Snapshot? {
      RowsStamped(last, s);
      WithStampJoin(SnapshotRows(init), RowsOf(last), s);
    } else {
      assert SnapshotRows(es) == SnapshotRows(init);
    }
  }

  lemma {:induction false} NoRowsWithStamp(es: seq<Event>, s: Stamp)
    requires forall k :: 0 <= k < |es| && es[k].change.Snapshot? ==> StampOf(es[k]) != s
    ensures WithStamp(SnapshotRows(es), s) == []
  {
    if es != [] {
      NoRowsWithStamp(es[..|es| - 1], s);
      RowsSnoc(es, s);
    }
  }

  /** The rows with a snapshot's stamp are its rows. */
  lemma {:induction false} RowsWithStamp(es: seq<Event>, k: nat)
    requires DistinctStamps(es) && k < |es| && es[k].change.Snapshot?
    ensures WithStamp(SnapshotRows(es), StampOf(es[k])) == RowsOf(es[k])
  {
    var init := es[..|es| - 1];
    RowsSnoc(es, StampOf(es[k]));
    if k == |es| - 1 {
      NoRowsWithStamp(init, StampOf(es[k]));
    } else {
      RowsWithStamp(init, k);
    }
  }

  // ------------------------------------------------------------------ the same events again

  /** The same change at the same place; a snapshot may list its levels in another order. */
  ghost predicate Same(a: Event, b: Event) {
    && a.mono == b.mono
    && match b.change
       case Snapshot(t, conn, sid, bids, asks) =>
         a.change.Snapshot? && StampOf(a) == StampOf(b) && Shuffled(bids, a.change.bids)
         && Shuffled(asks, a.change.asks)
       case _ => a == b
  }

  /** The tables hold the rows of the run, each table in any order. */
  ghost predicate Archived(run: seq<Event>, deltas: seq<Event>, rows: seq<Row>, gaps: seq<Event>) {
    && multiset(deltas) == multiset(Deltas(run)) && multiset(gaps) == multiset(Gaps(run))
    && multiset(rows) == multiset(SnapshotRows(run))
  }

  /** Receive order: monotonic times strictly increase, but for a gap and the frame that revealed it. */
  ghost predicate Received(run: seq<Event>) {
    forall i, j :: 0 <= i < j < |run| ==> Earlier(run[i], run[j])
  }

  lemma SameCounts(a: seq<Row>, b: seq<Row>, s: Stamp)
    requires multiset(a) == multiset(b)
    ensures multiset(WithStamp(a, s)) == multiset(WithStamp(b, s))
  {
    forall r: Row ensures multiset(WithStamp(a, s))[r] == multiset(WithStamp(b, s))[r] {
      WithStampCount(a, s, r);
      WithStampCount(b, s, r);
    }
  }

  lemma SameRowsSameSnapshot(rows: seq<Row>, o: Event)
    requires o.change.Snapshot? && multiset(rows) == multiset(RowsOf(o)) && rows != []
    ensures Same(EventOf(rows), o)
  {
    RowsRoundTrip(o);
    forall i | 0 <= i < |rows| ensures rows[i].stamp == StampOf(o) && rows[i].mono == o.mono {
      assert rows[i] in multiset(rows);
      assert rows[i] in RowsOf(o);
    }
    forall cell, l: Level ensures multiset(LevelsOf(rows, cell))[l] == multiset(LevelsOf(RowsOf(o), cell))[l] {
      LevelsCount(rows, StampOf(o), o.mono, cell, l);
      LevelsCount(RowsOf(o), StampOf(o), o.mono, cell, l);
    }
    assert EventOf(RowsOf(o)) == o;
  }

  ghost predicate Has(run: seq<Event>, e: Event) {
    exists k :: 0 <= k < |run| && Same(e, run[k])
  }

  /** Regrouping rows in any order gives the snapshots of the run and no others. */
  lemma RegroupedAreTheRun(run: seq<Event>, rows: seq<Row>, es: seq<Event>, i: nat)
    requires DistinctStamps(run) && multiset(rows) == multiset(SnapshotRows(run)) && Regrouped(rows, es) && i < |es|
    ensures Has(run, es[i])
  {
    var s := StampOf(es[i]);
    var group := WithStamp(rows, s);
    SameCounts(rows, SnapshotRows(run), s);
    assert group[0] in multiset(group);
    assert group[0] in multiset(WithStamp(SnapshotRows(run), s));
    WithStampMember(SnapshotRows(run), s, group[0]);
    RowsHaveSnapshots(run, group[0]);
    var k :| 0 <= k < |run| && run[k].change.Snapshot? && group[0] in RowsOf(run[k]);
    RowsRoundTrip(run[k]);
    RowsWithStamp(run, k);
    SameRowsSameSnapshot(group, run[k]);
    assert Same(es[i], run[k]);
  }

  lemma {:induction false} WithStampMember(rows: seq<Row>, s: Stamp, r: Row)
    requires r in WithStamp(rows, s)
    ensures r in rows && r.stamp == s
  {
    if r !in WithStamp(rows[..|rows| - 1], s) {
      assert r == rows[|rows| - 1];
    } else {
      WithStampMember(rows[..|rows| - 1], s, r);
      assert rows == rows[..|rows| - 1] + [rows[|rows| - 1]];
    }
  }

  lemma RunIsRegrouped(run: seq<Event>, rows: seq<Row>, es: seq<Event>, k: nat) returns (i: nat)
    requires DistinctStamps(run) && multiset(rows) == multiset(SnapshotRows(run)) && Regrouped(rows, es)
    requires k < |run| && run[k].change.Snapshot?
    ensures i < |es| && StampOf(es[i]) == StampOf(run[k])
  {
    var s := StampOf(run[k]);
    RowsWithStamp(run, k);
    RowsRoundTrip(run[k]);
    SameCounts(rows, SnapshotRows(run), s);
    var group := WithStamp(rows, s);
    assert RowsOf(run[k])[0] in multiset(RowsOf(run[k]));
    assert RowsOf(run[k])[0] in multiset(group);
    WithStampMember(rows, s, RowsOf(run[k])[0]);
    var j :| 0 <= j < |rows| && rows[j] == RowsOf(run[k])[0];
    assert HasStamp(es, rows[j].stamp);
    i :| 0 <= i < |es| && es[i].change.Snapshot? && StampOf(es[i]) == rows[j].stamp;
  }

  // ------------------------------------------------------------------ the order of application

  predicate SameKey(a: Event, b: Event) {
    a.mono == b.mono && Order(a) == Order(b)
  }

  ghost predicate KeysDistinct(es: seq<Event>) {
    forall i, j :: 0 <= i < j < |es| ==> !SameKey(es[i], es[j])
  }

  lemma {:induction false} PlacedIsSorted(x: Event, es: seq<Event>)
    requires Received(es) && forall i :: 0 <= i < |es| ==> !SameKey(x, es[i])
    ensures Received(Placed(x, es))
    ensures forall y :: y in Placed(x, es) <==> y == x || y in es
  {
    if es == [] {
    } else if !Earlier(x, es[|es| - 1]) {
      var r := es + [x];
      forall i | 0 <= i < |es| ensures Earlier(es[i], x) {
        assert i < |es| - 1 ==> Earlier(es[i], es[|es| - 1]);
      }
    } else {
      var init, last := es[..|es| - 1], es[|es| - 1];
      PlacedIsSorted(x, init);
      var front := Placed(x, init);
      assert es == init + [last];
      forall i | 0 <= i < |front| ensures Earlier(front[i], last) {
        assert front[i] in front;
        if front[i] != x {
          var j :| 0 <= j < |init| && init[j] == front[i];
          assert Earlier(es[j], es[|es| - 1]);
        }
      }
    }
  }

  lemma {:induction false} InOrderIsSorted(es: seq<Event>)
    requires KeysDistinct(es)
    ensures Received(InOrder(es)) && forall y :: y in InOrder(es) <==> y in es
  {
    if es != [] {
      var init, last := es[..|es| - 1], es[|es| - 1];
      InOrderIsSorted(init);
      var sorted := InOrder(init);
      forall i | 0 <= i < |sorted| ensures !SameKey(last, sorted[i]) {
        assert sorted[i] in sorted;
        var j :| 0 <= j < |init| && init[j] == sorted[i];
        assert es[j] == init[j] && !SameKey(es[j], es[|es| - 1]);
      }
      PlacedIsSorted(last, sorted);
      assert es == init + [last];
    }
  }

  ghost predicate HasKey(es: seq<Event>, o: Event) {
    exists k :: 0 <= k < |es| && SameKey(es[k], o)
  }

  lemma InitsAgree(a: seq<Event>, run: seq<Event>, i: nat)
    requires a != [] && run != [] && Received(a) && SameKey(a[|a| - 1], run[|run| - 1]) && i < |a| - 1 && Has(run, a[i])
    ensures Has(run[..|run| - 1], a[i])
  {
    var k :| 0 <= k < |run| && Same(a[i], run[k]);
    assert Earlier(a[i], a[|a| - 1]);
    assert run[..|run| - 1][k] == run[k];
  }

  lemma InitsAgreeBack(a: seq<Event>, run: seq<Event>, k: nat)
    requires a != [] && run != [] && Received(run) && SameKey(a[|a| - 1], run[|run| - 1]) && k < |run| - 1
             && HasKey(a, run[k])
    ensures HasKey(a[..|a| - 1], run[k])
  {
    var i :| 0 <= i < |a| && SameKey(a[i], run[k]);
    assert Earlier(run[k], run[|run| - 1]);
    assert a[..|a| - 1][i] == a[i];
  }

  /** Two lists in receive order with the same events have them at the same places. */
  lemma {:induction false} SamePlaces(a: seq<Event>, run: seq<Event>)
    requires Received(a) && Received(run)
    requires forall i {:trigger Has(run, a[i])} :: 0 <= i < |a| ==> Has(run, a[i])
    requires forall k {:trigger HasKey(a, run[k])} :: 0 <= k < |run| ==> HasKey(a, run[k])
    ensures |a| == |run| && forall i :: 0 <= i < |a| ==> Same(a[i], run[i])
    decreases |a|
  {
    assert run != [] ==> HasKey(a, run[0]);
    assert a != [] ==> Has(run, a[0]);
    if a != [] && run != [] {
      LastsAgree(a, run);
      var m, n := |a| - 1, |run| - 1;
      forall i | 0 <= i < m ensures Has(run[..n], a[..m][i]) {
        assert Has(run, a[i]);
        InitsAgree(a, run, i);
      }
      forall k | 0 <= k < n ensures HasKey(a[..m], run[..n][k]) {
        assert HasKey(a, run[k]);
        InitsAgreeBack(a, run, k);
      }
      SamePlaces(a[..m], run[..n]);
    }
  }

  lemma LastsAgree(a: seq<Event>, run: seq<Event>)
    requires a != [] && run != [] && Received(a) && Received(run)
    requires forall i {:trigger Has(run, a[i])} :: 0 <= i < |a| ==> Has(run, a[i])
    requires forall k {:trigger HasKey(a, run[k])} :: 0 <= k < |run| ==> HasKey(a, run[k])
    ensures Same(a[|a| - 1], run[|run| - 1])
  {
    var m, n := |a| - 1, |run| - 1;
    assert Has(run, a[m]) && HasKey(a, run[n]);
    var k :| 0 <= k < |run| && Same(a[m], run[k]);
    var i :| 0 <= i < |a| && SameKey(a[i], run[n]);
    assert k < n ==> Earlier(run[k], run[n]);
    assert i < m ==> Earlier(a[i], a[m]);
    assert SameKey(a[m], run[k]);
  }

  lemma SameEffect(s: State, a: Event, b: Event)
    requires Same(a, b)
    ensures Applied(s, a.change) == Applied(s, b.change)
  {
    if b.change.Snapshot? {
      ShuffledSnapshot(Bus.BookOf(s.books, b.change.ticker), b.change.bids, b.change.asks, a.change.bids,
          a.change.asks);
    }
  }

  lemma {:induction false} SameOutcome(s: State, a: seq<Event>, run: seq<Event>)
    requires |a| == |run| && forall i :: 0 <= i < |a| ==> Same(a[i], run[i])
    ensures AppliedAll(s, a) == AppliedAll(s, run)
  {
    if a != [] {
      SameOutcome(s, a[..|a| - 1], run[..|run| - 1]);
      SameEffect(AppliedAll(s, a[..|a| - 1]), a[|a| - 1], run[|run| - 1]);
    }
  }

  // ------------------------------------------------------------------ baking, then replaying

  lemma {:induction false} DeltasAre(run: seq<Event>)
    ensures forall e :: e in Deltas(run) <==> e in run && e.change.Delta?
    ensures forall e :: e in Gaps(run) <==> e in run && e.change.Gap?
  {
    if run != [] {
      var init, last := run[..|run| - 1], run[|run| - 1];
      DeltasAre(init);
      assert run == init + [last];
    }
  }

  lemma {:induction false} OnceEach(run: seq<Event>, e: Event)
    requires Received(run)
    ensures multiset(Deltas(run))[e] <= 1 && multiset(Gaps(run))[e] <= 1
  {
    if run != [] {
      var init, last := run[..|run| - 1], run[|run| - 1];
      OnceEach(init, e);
      DeltasAre(init);
      forall k | 0 <= k < |init| ensures init[k] != last { assert Earlier(run[k], run[|run| - 1]); }
      CountSnoc(Deltas(init), last, e);
      CountSnoc(Gaps(init), last, e);
      assert last !in multiset(Deltas(init)) && last !in multiset(Gaps(init));
      assert !last.change.Delta? ==> Deltas(run) == Deltas(init);
      assert !last.change.Gap? ==> Gaps(run) == Gaps(init);
    }
  }

  lemma NotTwice(es: seq<Event>, i: nat, j: nat)
    requires i < j < |es|
    ensures es[i] == es[j] ==> multiset(es)[es[i]] >= 2
  {
    assert es == es[..j] + [es[j]] + es[j + 1..];
    assert es[..j][i] == es[i];
    assert es[i] in multiset(es[..j]);
  }

  ghost predicate AreTheRun(run: seq<Event>, es: seq<Event>) {
    (forall i :: 0 <= i < |es| ==> Has(run, es[i])) && KeysDistinct(es)
  }

  /** In a run a key belongs to one event. */
  lemma OneEventPerKey(run: seq<Event>, i: nat, j: nat)
    requires Received(run) && i < |run| && j < |run|
    ensures SameKey(run[i], run[j]) ==> i == j
  {
    assert i < j ==> Earlier(run[i], run[j]);
    assert j < i ==> Earlier(run[j], run[i]);
  }

  lemma TableIsTheRun(run: seq<Event>, table: seq<Event>, es: seq<Event>)
    requires Received(run) && multiset(es) == multiset(table) && (table == Deltas(run) || table == Gaps(run))
    ensures AreTheRun(run, es) && forall i :: 0 <= i < |es| ==> es[i] in run && es[i] in table
  {
    DeltasAre(run);
    forall i | 0 <= i < |es| ensures es[i] in run && es[i] in table && Has(run, es[i]) {
      assert es[i] in multiset(es);
      assert es[i] in table;
      var k :| 0 <= k < |run| && run[k] == es[i];
      assert Same(es[i], run[k]);
    }
    forall i, j | 0 <= i < j < |es| ensures !SameKey(es[i], es[j]) {
      OnceEach(run, es[i]);
      NotTwice(es, i, j);
      var k :| 0 <= k < |run| && run[k] == es[i];
      var l :| 0 <= l < |run| && run[l] == es[j];
      OneEventPerKey(run, k, l);
    }
  }

  lemma SnapshotsAreTheRun(run: seq<Event>, rows: seq<Row>, es: seq<Event>)
    requires Received(run) && DistinctStamps(run) && multiset(rows) == multiset(SnapshotRows(run))
             && Regrouped(rows, es)
    ensures AreTheRun(run, es)
  {
    forall i | 0 <= i < |es| ensures Has(run, es[i]) { RegroupedAreTheRun(run, rows, es, i); }
    forall i, j | 0 <= i < j < |es| ensures !SameKey(es[i], es[j]) { StampsApart(run, es, i, j); }
  }

  lemma StampsApart(run: seq<Event>, es: seq<Event>, i: nat, j: nat)
    requires Received(run) && DistinctStamps(es) && i < j < |es| && es[i].change.Snapshot? && es[j].change.Snapshot?
    requires Has(run, es[i]) && Has(run, es[j])
    ensures !SameKey(es[i], es[j])
  {
    var k :| 0 <= k < |run| && Same(es[i], run[k]);
    var l :| 0 <= l < |run| && Same(es[j], run[l]);
    OneEventPerKey(run, k, l);
  }

  /** Events of different kinds never share a place. */
  lemma JoinTables(run: seq<Event>, a: seq<Event>, b: seq<Event>)
    requires Received(run) && AreTheRun(run, a) && AreTheRun(run, b)
    requires forall i, j :: 0 <= i < |a| && 0 <= j < |b| ==> Kind(a[i]) != Kind(b[j])
    ensures AreTheRun(run, a + b)
  {
    var all := a + b;
    forall i | 0 <= i < |all| ensures Has(run, all[i]) {
      assert i < |a| ==> Has(run, a[i]);
      assert i >= |a| ==> Has(run, b[i - |a|]);
    }
    forall i, j | 0 <= i < j < |all| ensures !SameKey(all[i], all[j]) {
      if i < |a| <= j {
        KindsApart(run, a[i], b[j - |a|]);
      }
    }
  }

  lemma KindsApart(run: seq<Event>, x: Event, y: Event)
    requires Received(run) && Has(run, x) && Has(run, y) && Kind(x) != Kind(y)
    ensures !SameKey(x, y)
  {
    var k :| 0 <= k < |run| && Same(x, run[k]);
    var l :| 0 <= l < |run| && Same(y, run[l]);
    OneEventPerKey(run, k, l);
  }

  function Kind(e: Event): int {
    match e.change
    case Gap(_, _) => 0
    case Delta(_, _, _, _, _, _) => 1
    case Snapshot(_, _, _, _, _) => 2
  }

  lemma OneEventPerStamp(run: seq<Event>, k: nat, l: nat)
    requires DistinctStamps(run) && k < |run| && l < |run| && run[k].change.Snapshot? && run[l].change.Snapshot?
    ensures StampOf(run[k]) == StampOf(run[l]) ==> k == l
  {
  }

  lemma {:induction false} SnapshotsHaveKey(run: seq<Event>, rows: seq<Row>, es: seq<Event>, k: nat)
    requires Received(run) && DistinctStamps(run) && multiset(rows) == multiset(SnapshotRows(run))
             && Regrouped(rows, es)
    requires k < |run| && run[k].change.Snapshot?
    ensures HasKey(es, run[k])
  {
    var i := RunIsRegrouped(run, rows, es, k);
    RegroupedAreTheRun(run, rows, es, i);
    var l :| 0 <= l < |run| && Same(es[i], run[l]);
    OneEventPerStamp(run, k, l);
    assert SameKey(es[i], run[k]);
  }

  lemma HasKeyIn(a: seq<Event>, b: seq<Event>, o: Event)
    requires HasKey(a, o) || HasKey(b, o)
    ensures HasKey(a + b, o)
  {
    if HasKey(a, o) {
      var k :| 0 <= k < |a| && SameKey(a[k], o);
      assert SameKey((a + b)[k], o);
    } else {
      var k :| 0 <= k < |b| && SameKey(b[k], o);
      assert SameKey((a + b)[|a| + k], o);
    }
  }

  lemma TablesHaveKey(
      run: seq<Event>, deltas: seq<Event>, snapshots: seq<Event>, gaps: seq<Event>, rows: seq<Row>, k: nat)
    requires Received(run) && DistinctStamps(run) && Archived(run, deltas, rows, gaps) && Regrouped(rows, snapshots)
             && k < |run|
    ensures HasKey(deltas + snapshots + gaps, run[k])
  {
    DeltasAre(run);
    match run[k].change
    case Delta(_, _, _, _, _, _) =>
      assert run[k] in multiset(Deltas(run));
      assert run[k] in multiset(deltas);
      var i :| 0 <= i < |deltas| && deltas[i] == run[k];
      assert SameKey(deltas[i], run[k]);
      HasKeyIn(deltas, snapshots, run[k]);
      HasKeyIn(deltas + snapshots, gaps, run[k]);
    case Snapshot(_, _, _, _, _) =>
      SnapshotsHaveKey(run, rows, snapshots, k);
      HasKeyIn(deltas, snapshots, run[k]);
      HasKeyIn(deltas + snapshots, gaps, run[k]);
    case Gap(_, _) =>
      assert run[k] in multiset(Gaps(run));
      assert run[k] in multiset(gaps);
      var i :| 0 <= i < |gaps| && gaps[i] == run[k];
      assert SameKey(gaps[i], run[k]);
      HasKeyIn(deltas + snapshots, gaps, run[k]);
  }

  lemma SortedTables(run: seq<Event>, all: seq<Event>)
    requires Received(run) && AreTheRun(run, all)
    requires forall k {:trigger HasKey(all, run[k])} :: 0 <= k < |run| ==> HasKey(all, run[k])
    ensures |InOrder(all)| == |run| && forall i :: 0 <= i < |InOrder(all)| ==> Same(InOrder(all)[i], run[i])
  {
    var sorted := InOrder(all);
    InOrderIsSorted(all);
    forall i | 0 <= i < |sorted| ensures Has(run, sorted[i]) {
      assert sorted[i] in sorted;
      var j :| 0 <= j < |all| && all[j] == sorted[i];
      assert Has(run, all[j]);
    }
    forall k | 0 <= k < |run| ensures HasKey(sorted, run[k]) {
      assert HasKey(all, run[k]);
      var j :| 0 <= j < |all| && SameKey(all[j], run[k]);
      assert all[j] in sorted;
      var i :| 0 <= i < |sorted| && sorted[i] == all[j];
      assert SameKey(sorted[i], run[k]);
    }
    SamePlaces(sorted, run);
  }

  /** Some events hold a run: each is one of it, and each of it is among them once. */
  ghost predicate HoldsRun(run: seq<Event>, es: seq<Event>) {
    && Received(run) && AreTheRun(run, es)
    && forall k {:trigger HasKey(es, run[k])} :: 0 <= k < |run| ==> HasKey(es, run[k])
  }

  /** Baked into rows, shuffled, sorted and regrouped, the tables hold the run. */
  lemma TablesHoldRun(run: seq<Event>, deltas: seq<Event>, rows: seq<Row>, snapshots: seq<Event>, gaps: seq<Event>)
    requires Received(run) && DistinctStamps(run) && Archived(run, deltas, rows, gaps)
             && Regrouped(ByStamp(rows), snapshots)
    ensures HoldsRun(run, deltas + snapshots + gaps)
  {
    ByStampSorts(rows);
    RegroupedHoldRun(run, deltas, ByStamp(rows), snapshots, gaps);
  }

  lemma RegroupedHoldRun(run: seq<Event>, deltas: seq<Event>, rows: seq<Row>, snapshots: seq<Event>, gaps: seq<Event>)
    requires Received(run) && DistinctStamps(run) && Archived(run, deltas, rows, gaps) && Regrouped(rows, snapshots)
    ensures HoldsRun(run, deltas + snapshots + gaps)
  {
    TableIsTheRun(run, Deltas(run), deltas);
    TableIsTheRun(run, Gaps(run), gaps);
    DeltasAre(run);
    SnapshotsAreTheRun(run, rows, snapshots);
    JoinTables(run, deltas, snapshots);
    JoinTables(run, deltas + snapshots, gaps);
    forall k | 0 <= k < |run| ensures HasKey(deltas + snapshots + gaps, run[k]) {
      TablesHaveKey(run, deltas, snapshots, gaps, rows, k);
    }
  }

  /** Sorted by monotonic time, gaps first, they do to any books what the run does. */
  lemma HeldReplays(s: State, run: seq<Event>, es: seq<Event>)
    requires HoldsRun(run, es)
    ensures AppliedAll(s, InOrder(es)) == AppliedAll(s, run)
  {
    SortedTables(run, es);
    SameOutcome(s, InOrder(es), run);
  }

  // ------------------------------------------------------------------ restarts of the monotonic clock

  const MONO_RESTART_NS := 600_000_000_000

  /** Some reading lies further below an earlier one than any reordering explains. */
  ghost predicate Restarts(byWall: seq<Event>) {
    exists i, j :: 0 <= i < j < |byWall| && byWall[j].mono < byWall[i].mono - 600_000_000_000
  }

  /** The events in wall-clock order split into stretches: within one no reading lies further below an earlier one
      than the limit, and each begins with a reading that lies further below one of the stretch before it. */
  ghost predicate Stretched(byWall: seq<Event>, stretch: seq<nat>) {
    && |stretch| == |byWall| && Climbs(stretch) && HoldsWithin(byWall, stretch)
    && (forall i, j ::
        0 <= i && j == i + 1 < |stretch| && stretch[i] != stretch[j] ==>
        Falls(byWall, stretch, stretch[i], byWall[j].mono))
  }

  ghost predicate Climbs(stretch: seq<nat>) {
    && (stretch != [] ==> stretch[0] == 0)
    && (forall i, j :: 0 <= i && j == i + 1 < |stretch| ==> stretch[i] <= stretch[j] <= stretch[i] + 1)
  }

  ghost predicate HoldsWithin(byWall: seq<Event>, stretch: seq<nat>) {
    forall i, j ::
        0 <= i < j < |stretch| && j < |byWall| && stretch[i] == stretch[j] ==>
        byWall[j].mono >= byWall[i].mono - 600_000_000_000
  }

  /** The reading lies further below one of the stretch than the limit. */
  ghost predicate Falls(byWall: seq<Event>, stretch: seq<nat>, of: nat, mono: int) {
    exists i :: 0 <= i < |stretch| && i < |byWall| && stretch[i] == of && mono < byWall[i].mono - 600_000_000_000
  }

  /** The highest reading of the last stretch. */
  ghost predicate IsHighest(es: seq<Event>, stretch: seq<nat>, last: nat, highest: int) {
    && |stretch| == |es|
    && (forall i :: 0 <= i < |es| && stretch[i] == last ==> es[i].mono <= highest)
    && (exists i :: 0 <= i < |es| && stretch[i] == last && es[i].mono == highest)
  }

  lemma FallsStay(es: seq<Event>, stretch: seq<nat>, e: Event, mark: nat, of: nat, mono: int)
    requires |stretch| == |es| && Falls(es, stretch, of, mono)
    ensures Falls(es + [e], stretch + [mark], of, mono)
  {
    var i :| 0 <= i < |stretch| && i < |es| && stretch[i] == of && mono < es[i].mono - MONO_RESTART_NS;
    assert (es + [e])[i] == es[i] && (stretch + [mark])[i] == stretch[i];
  }

  lemma HoldsNext(es: seq<Event>, stretch: seq<nat>, e: Event, mark: nat)
    requires |es| == |stretch| && HoldsWithin(es, stretch)
    requires forall i :: 0 <= i < |es| && stretch[i] == mark ==> e.mono >= es[i].mono - MONO_RESTART_NS
    ensures HoldsWithin(es + [e], stretch + [mark])
  {
    var all, marks := es + [e], stretch + [mark];
    forall i, j | 0 <= i < j < |marks| && marks[i] == marks[j] ensures all[j].mono >= all[i].mono - MONO_RESTART_NS {
      assert all[i] == es[i] && marks[i] == stretch[i];
      if j < |es| { assert all[j] == es[j] && marks[j] == stretch[j]; }
    }
  }

  lemma ClimbsNext(stretch: seq<nat>, mark: nat)
    requires stretch != [] && Climbs(stretch) && stretch[|stretch| - 1] <= mark <= stretch[|stretch| - 1] + 1
    ensures Climbs(stretch + [mark])
  {
  }

  lemma FallsNext(es: seq<Event>, stretch: seq<nat>, e: Event, mark: nat, i: nat)
    requires es != [] && |es| == |stretch| && i < |es|
    requires i + 1 < |es| ==> stretch[i] == stretch[i + 1] || Falls(es, stretch, stretch[i], es[i + 1].mono)
    requires stretch[|es| - 1] == mark || Falls(es, stretch, stretch[|es| - 1], e.mono)
    ensures var all, marks := es + [e], stretch + [mark];
            marks[i] == marks[i + 1] || Falls(all, marks, marks[i], all[i + 1].mono)
  {
    var all := es + [e];
    assert all[i + 1] == if i + 1 < |es| then es[i + 1] else e;
    if i + 1 < |es| && stretch[i] != stretch[i + 1] { FallsStay(es, stretch, e, mark, stretch[i], es[i + 1].mono); }
    if i + 1 == |es| && stretch[i] != mark { FallsStay(es, stretch, e, mark, stretch[i], e.mono); }
  }

  /** One more event, in the same stretch or, if its reading falls, in the next. */
  lemma StretchedNext(es: seq<Event>, stretch: seq<nat>, e: Event, mark: nat)
    requires es != [] && Stretched(es, stretch) && stretch[|stretch| - 1] <= mark <= stretch[|stretch| - 1] + 1
    requires forall i :: 0 <= i < |es| && stretch[i] == mark ==> e.mono >= es[i].mono - MONO_RESTART_NS
    requires stretch[|stretch| - 1] == mark || Falls(es, stretch, stretch[|stretch| - 1], e.mono)
    ensures Stretched(es + [e], stretch + [mark])
  {
    var all, marks := es + [e], stretch + [mark];
    HoldsNext(es, stretch, e, mark);
    ClimbsNext(stretch, mark);
    forall i, j | 0 <= i && j == i + 1 < |marks| && marks[i] != marks[j]
      ensures Falls(all, marks, marks[i], all[j].mono)
    {
      FallsNext(es, stretch, e, mark, i);
    }
  }

  lemma HighestNext(es: seq<Event>, stretch: seq<nat>, last: nat, highest: int, e: Event)
    requires IsHighest(es, stretch, last, highest)
    ensures IsHighest(es + [e], stretch + [last], last, Max(highest, e.mono))
  {
    var i :| 0 <= i < |es| && stretch[i] == last && es[i].mono == highest;
    assert (es + [e])[i] == es[i] && (stretch + [last])[i] == last && (es + [e])[|es|] == e
           && (stretch + [last])[|es|] == last;
  }

  lemma HighestFirst(es: seq<Event>, stretch: seq<nat>, next: nat, e: Event)
    requires |stretch| == |es| && forall i :: 0 <= i < |stretch| ==> stretch[i] != next
    ensures IsHighest(es + [e], stretch + [next], next, e.mono)
  {
    assert (es + [e])[|es|] == e && (stretch + [next])[|es|] == next;
  }

  /** There is one stretch only exactly when no reading lies further below an earlier one than the limit. */
  lemma OneStretchIff(byWall: seq<Event>, stretch: seq<nat>)
    requires Stretched(byWall, stretch)
    ensures Restarts(byWall) <==> exists i :: 0 <= i < |stretch| && stretch[i] != 0
  {
    if i :| 0 <= i < |stretch| && stretch[i] != 0 { FirstFall(byWall, stretch, i); }
  }

  lemma {:induction false} FirstFall(byWall: seq<Event>, stretch: seq<nat>, i: nat)
    requires Stretched(byWall, stretch) && i < |stretch| && stretch[i] != 0
    ensures Restarts(byWall)
  {
    assert i > 0;
    if stretch[i - 1] != 0 {
      FirstFall(byWall, stretch, i - 1);
    } else {
      assert Falls(byWall, stretch, stretch[i - 1], byWall[i].mono);
      var k :| 0 <= k < |stretch| && k < |byWall| && stretch[k] == 0
          && byWall[i].mono < byWall[k].mono - MONO_RESTART_NS;
      if k > i { NeverBack(byWall, stretch, i, k); }
    }
  }

  lemma {:induction false} NeverBack(byWall: seq<Event>, stretch: seq<nat>, i: nat, k: nat)
    requires Stretched(byWall, stretch) && i <= k < |stretch|
    ensures stretch[i] <= stretch[k]
    decreases k - i
  {
    if i < k {
      NeverBack(byWall, stretch, i, k - 1);
      assert stretch[k - 1] <= stretch[k];
    }
  }

  /** The stretch reached after some events and the highest reading of it. */
  datatype Reading = Reading(stretch: nat, highest: Option<int>)

  function ReadingNext(r: Reading, mono: int): Reading {
    if r.highest.None? then r.(highest := Some(mono))
    else if mono < r.highest.value - MONO_RESTART_NS then Reading(r.stretch + 1, Some(mono))
    else r.(highest := Some(Max(r.highest.value, mono)))
  }

  function ReadingAfter(es: seq<Event>): Reading {
    if es == [] then Reading(0, None) else ReadingNext(ReadingAfter(es[..|es| - 1]), es[|es| - 1].mono)
  }

  function StretchesOf(es: seq<Event>): (stretch: seq<nat>)
    ensures |stretch| == |es|
  {
    if es == [] then [] else StretchesOf(es[..|es| - 1]) + [ReadingAfter(es).stretch]
  }

  /** The reading is the highest of the last stretch, and no stretch is beyond it. */
  lemma {:induction false} ReadingIsHighest(es: seq<Event>)
    requires es != []
    ensures var r := ReadingAfter(es); var s := StretchesOf(es);
            r.highest.Some? && IsHighest(es, s, r.stretch, r.highest.value) && s[|s| - 1] == r.stretch
            && forall i :: 0 <= i < |s| ==> s[i] <= r.stretch
  {
    var init, e := es[..|es| - 1], es[|es| - 1];
    assert es == init + [e];
    if init == [] {
      FirstStretch(e);
    } else {
      ReadingIsHighest(init);
      var r := ReadingAfter(init);
      if e.mono < r.highest.value - MONO_RESTART_NS {
        HighestFirst(init, StretchesOf(init), r.stretch + 1, e);
      } else {
        HighestNext(init, StretchesOf(init), r.stretch, r.highest.value, e);
      }
    }
  }

  lemma {:induction false} StretchesAreStretched(es: seq<Event>)
    ensures Stretched(es, StretchesOf(es))
  {
    if es != [] {
      var init, e := es[..|es| - 1], es[|es| - 1];
      assert es == init + [e];
      if init == [] {
        FirstStretch(e);
      } else {
        StretchesAreStretched(init);
        ReadingIsHighest(init);
        var r := ReadingAfter(init);
        if e.mono < r.highest.value - MONO_RESTART_NS { assert Falls(init, StretchesOf(init), r.stretch, e.mono); }
        StretchedNext(init, StretchesOf(init), e, ReadingAfter(es).stretch);
      }
    }
  }

  /** Which stretch each event belongs to, from the events in wall-clock order. */
  method Stretches(byWall: seq<Event>) returns (stretch: seq<nat>)
    ensures stretch == StretchesOf(byWall) && Stretched(byWall, stretch)
  {
    stretch := [];
    var restarts: nat := 0;
    var highest: Option<int> := None;
    for k := 0 to |byWall|
      invariant Reading(restarts, highest) == ReadingAfter(byWall[..k]) && stretch == StretchesOf(byWall[..k])
    {
      var mono := byWall[k].mono;
      assert byWall[..k + 1][..k] == byWall[..k];
      if highest.Some? && mono < highest.value - MONO_RESTART_NS {
        restarts, highest := restarts + 1, Some(mono);
      } else {
        highest := Some(if highest.None? then mono else Max(highest.value, mono));
      }
      stretch := stretch + [restarts];
    }
    assert byWall[..|byWall|] == byWall;
    StretchesAreStretched(byWall);
  }

  lemma FirstStretch(e: Event)
    ensures StretchesOf([e]) == [0] && ReadingAfter([e]) == Reading(0, Some(e.mono))
    ensures Stretched([e], [0]) && IsHighest([e], [0], 0, e.mono)
  {
    assert [e][..0] == [] && [e][0] == e && [0][0] == 0;
    assert ReadingAfter([e]) == ReadingNext(ReadingAfter([]), e.mono)
           && StretchesOf([e]) == StretchesOf([]) + [ReadingAfter([e]).stretch];
  }

  // ------------------------------------------------------------------ the whole order of replay

  /** Places by wall time, equal times by place. */
  predicate WallBefore(es: seq<Event>, i: nat, j: nat)
    requires i < |es| && j < |es|
  {
    es[i].wall < es[j].wall || (es[i].wall == es[j].wall && i < j)
  }

  ghost predicate Stands(order: seq<nat>, i: nat) {
    exists k :: 0 <= k < |order| && order[k] == i
  }

  ghost predicate ByWall(es: seq<Event>, n: nat, order: seq<nat>)
    requires n <= |es|
  {
    && |order| == n && (forall k :: 0 <= k < n ==> order[k] < n) && (forall i :: 0 <= i < n ==> Stands(order, i))
    && (forall a, b :: 0 <= a < b < n ==> WallBefore(es, order[a], order[b]))
  }

  method SortByWall(es: seq<Event>) returns (order: seq<nat>)
    ensures ByWall(es, |es|, order)
  {
    order := [];
    for i := 0 to |es|
      invariant ByWall(es, i, order)
    {
      var at := |order|;
      while at > 0 && es[i].wall < es[order[at - 1]].wall
        invariant 0 <= at <= |order|
        invariant forall k :: at <= k < |order| ==> es[i].wall < es[order[k]].wall
      {
        at := at - 1;
      }
      InsertedByWall(es, i, order, at);
      order := order[..at] + [i] + order[at..];
    }
  }

  lemma StillStands(order: seq<nat>, at: nat, i: nat, j: nat)
    requires at <= |order| && (j == i || Stands(order, j))
    ensures Stands(order[..at] + [i] + order[at..], j)
  {
    var r := order[..at] + [i] + order[at..];
    if j == i {
      assert r[at] == i;
    } else {
      var k :| 0 <= k < |order| && order[k] == j;
      assert r[if k < at then k else k + 1] == j;
    }
  }

  lemma InsertedByWall(es: seq<Event>, i: nat, order: seq<nat>, at: nat)
    requires i < |es| && ByWall(es, i, order) && at <= i
    requires forall k :: at <= k < i ==> es[i].wall < es[order[k]].wall
    requires at > 0 ==> es[order[at - 1]].wall <= es[i].wall
    ensures ByWall(es, i + 1, order[..at] + [i] + order[at..])
  {
    var r := order[..at] + [i] + order[at..];
    forall j | 0 <= j < i + 1 ensures Stands(r, j) { StillStands(order, at, i, j); }
    forall k | 0 <= k < at ensures WallBefore(es, order[k], i) {
      if k < at - 1 { assert WallBefore(es, order[k], order[at - 1]); }
    }
    forall k | 0 <= k < i + 1 ensures r[k] < i + 1 {
      assert r[k] == if k < at then order[k] else if k == at then i else order[k - 1];
    }
    forall a, b | 0 <= a < b < i + 1 ensures WallBefore(es, r[a], r[b]) {
      var x := if a < at then a else a - 1;
      var y := if b < at then b else b - 1;
      if a != at && b != at {
        assert 0 <= x < y < i && r[a] == order[x] && r[b] == order[y] && WallBefore(es, order[x], order[y]);
      }
    }
  }

  function Along(es: seq<Event>, order: seq<nat>): seq<Event>
    requires forall k :: 0 <= k < |order| ==> order[k] < |es|
  {
    seq(|order|, k requires 0 <= k < |order| => es[order[k]])
  }

  /** An event with the stretch it belongs to. */
  datatype Marked = Marked(event: Event, stretch: nat)

  predicate Sooner(a: Marked, b: Marked) {
    a.stretch < b.stretch || (a.stretch == b.stretch && Earlier(a.event, b.event))
  }

  function MarkedPlaced(x: Marked, ms: seq<Marked>): seq<Marked> {
    if ms == [] || !Sooner(x, ms[|ms| - 1]) then ms + [x] else MarkedPlaced(x, ms[..|ms| - 1]) + [ms[|ms| - 1]]
  }

  /** By stretch, monotonic time, kind, and place. */
  function MarkedInOrder(ms: seq<Marked>): seq<Marked> {
    if ms == [] then [] else MarkedPlaced(ms[|ms| - 1], MarkedInOrder(ms[..|ms| - 1]))
  }

  function EventsIn(ms: seq<Marked>): seq<Event> {
    if ms == [] then [] else EventsIn(ms[..|ms| - 1]) + [ms[|ms| - 1].event]
  }

  ghost predicate InStretch(ms: seq<Marked>, k: nat) {
    forall i :: 0 <= i < |ms| ==> ms[i].stretch == k
  }

  lemma EventsSnoc(ms: seq<Marked>, x: Marked)
    ensures EventsIn(ms + [x]) == EventsIn(ms) + [x.event]
  {
    assert (ms + [x])[..|ms|] == ms;
  }

  lemma PlacedLast(x: Event, es: seq<Event>, last: Event)
    ensures Placed(x, es + [last]) == if Earlier(x, last) then Placed(x, es) + [last] else es + [last] + [x]
  {
    assert (es + [last])[..|es|] == es;
  }

  lemma {:induction false} PlacedStays(x: Marked, ms: seq<Marked>, k: nat)
    requires InStretch(ms, k) && x.stretch == k
    ensures InStretch(MarkedPlaced(x, ms), k)
  {
    if ms != [] { PlacedStays(x, ms[..|ms| - 1], k); }
  }

  lemma {:induction false} PlacedAlike(x: Marked, ms: seq<Marked>, k: nat)
    requires InStretch(ms, k) && x.stretch == k
    ensures EventsIn(MarkedPlaced(x, ms)) == Placed(x.event, EventsIn(ms))
  {
    if ms == [] {
      EventsSnoc([], x);
    } else {
      var init, last := ms[..|ms| - 1], ms[|ms| - 1];
      EventsSnoc(init, last);
      PlacedLast(x.event, EventsIn(init), last.event);
      if Sooner(x, last) {
        PlacedAlike(x, init, k);
        EventsSnoc(MarkedPlaced(x, init), last);
      } else {
        EventsSnoc(ms, x);
      }
    }
  }

  /** Within one stretch the order is that of monotonic times and gaps. */
  lemma {:induction false} StretchInOrder(ms: seq<Marked>, k: nat)
    requires InStretch(ms, k)
    ensures InStretch(MarkedInOrder(ms), k) && EventsIn(MarkedInOrder(ms)) == InOrder(EventsIn(ms))
  {
    if ms != [] {
      var init, last := ms[..|ms| - 1], ms[|ms| - 1];
      StretchInOrder(init, k);
      PlacedAlike(last, MarkedInOrder(init), k);
      PlacedStays(last, MarkedInOrder(init), k);
      assert EventsIn(ms)[..|EventsIn(ms)| - 1] == EventsIn(init);
    }
  }

  function Marks(es: seq<Event>, marks: seq<nat>): (ms: seq<Marked>)
    requires |marks| == |es|
    ensures |ms| == |es| && forall i :: 0 <= i < |es| ==> ms[i] == Marked(es[i], marks[i])
  {
    seq(|es|, i requires 0 <= i < |es| => Marked(es[i], marks[i]))
  }

  lemma {:induction false} MarksHoldEvents(es: seq<Event>, marks: seq<nat>)
    requires |marks| == |es|
    ensures EventsIn(Marks(es, marks)) == es
  {
    if es != [] {
      var n := |es| - 1;
      MarksHoldEvents(es[..n], marks[..n]);
      assert Marks(es, marks)[..n] == Marks(es[..n], marks[..n]);
    }
  }

  // ------------------------------------------------------------------ one stretch after another

  function OfStretch(ms: seq<Marked>, k: nat): seq<Marked> {
    if ms == [] then [] else OfStretch(ms[..|ms| - 1], k) + (if ms[|ms| - 1].stretch == k then [ms[|ms| - 1]] else [])
  }

  /** The events of one stretch. */
  function Part(es: seq<Event>, marks: seq<nat>, k: nat): seq<Event>
    requires |marks| == |es|
  {
    EventsIn(OfStretch(Marks(es, marks), k))
  }

  /** One sequence after another. */
  function Whole<T>(parts: seq<seq<T>>): seq<T> {
    if parts == [] then [] else Whole(parts[..|parts| - 1]) + parts[|parts| - 1]
  }

  /** Each stretch, sorted. */
  function SortedStretches(ms: seq<Marked>, n: nat): (parts: seq<seq<Marked>>)
    ensures |parts| == n && forall k {:trigger parts[k]} :: 0 <= k < n ==> parts[k] == MarkedInOrder(OfStretch(ms, k))
  {
    seq(n, k requires 0 <= k < n => MarkedInOrder(OfStretch(ms, k)))
  }

  lemma {:induction false} PartIsInStretch(ms: seq<Marked>, k: nat)
    ensures InStretch(OfStretch(ms, k), k) && InStretch(MarkedInOrder(OfStretch(ms, k)), k)
  {
    if ms != [] { PartIsInStretch(ms[..|ms| - 1], k); }
    StretchInOrder(OfStretch(ms, k), k);
  }

  lemma {:induction false} PlacedBefore(x: Marked, a: seq<Marked>, c: seq<Marked>)
    requires forall i :: 0 <= i < |c| ==> x.stretch < c[i].stretch
    ensures MarkedPlaced(x, a + c) == MarkedPlaced(x, a) + c
  {
    if c == [] {
      assert a + c == a;
    } else {
      var init, last := c[..|c| - 1], c[|c| - 1];
      PlacedBefore(x, a, init);
      assert (a + c)[..|a + c| - 1] == a + init && c == init + [last];
      Join(MarkedPlaced(x, a), init, [last]);
    }
  }

  lemma {:induction false} PlacedBehind(x: Marked, a: seq<Marked>, c: seq<Marked>)
    requires forall i :: 0 <= i < |a| ==> a[i].stretch < x.stretch
    ensures MarkedPlaced(x, a + c) == a + MarkedPlaced(x, c)
  {
    if c == [] {
      assert a + c == a && (a != [] ==> !Sooner(x, a[|a| - 1]));
    } else {
      var init, last := c[..|c| - 1], c[|c| - 1];
      PlacedBehind(x, a, init);
      assert (a + c)[..|a + c| - 1] == a + init && c == init + [last];
      Join(a, MarkedPlaced(x, init), [last]);
      Join(a, c, [x]);
    }
  }

  ghost predicate InStretches(parts: seq<seq<Marked>>) {
    forall k :: 0 <= k < |parts| ==> InStretch(parts[k], k)
  }

  lemma {:induction false} StretchesBelow(parts: seq<seq<Marked>>)
    requires InStretches(parts)
    ensures forall i :: 0 <= i < |Whole(parts)| ==> Whole(parts)[i].stretch < |parts|
  {
    if parts != [] { StretchesBelow(parts[..|parts| - 1]); }
  }

  /** Placing one event among stretches is placing it within its own. */
  lemma {:induction false} PlacedInOwn(x: Marked, parts: seq<seq<Marked>>, after: seq<seq<Marked>>)
    requires InStretches(parts) && |after| == |parts|
    requires forall k :: 0 <= k < |parts| ==> after[k] == if k == x.stretch then MarkedPlaced(x, parts[k]) else parts[k]
    ensures Whole(after) == if x.stretch < |parts| then MarkedPlaced(x, Whole(parts)) else Whole(parts)
  {
    if parts != [] {
      var n := |parts| - 1;
      PlacedInOwn(x, parts[..n], after[..n]);
      StretchesBelow(parts[..n]);
      if x.stretch == n {
        PlacedBehind(x, Whole(parts[..n]), parts[n]);
      } else if x.stretch < n {
        PlacedBefore(x, Whole(parts[..n]), parts[n]);
      }
    }
  }

  lemma OfStretchSnoc(ms: seq<Marked>, x: Marked, k: nat)
    ensures OfStretch(ms + [x], k) == OfStretch(ms, k) + (if x.stretch == k then [x] else [])
  {
    assert (ms + [x])[..|ms|] == ms;
  }

  lemma InOrderSnoc(ms: seq<Marked>, x: Marked)
    ensures MarkedInOrder(ms + [x]) == MarkedPlaced(x, MarkedInOrder(ms))
  {
    assert (ms + [x])[..|ms|] == ms;
  }

  lemma {:induction false} NothingSorted(n: nat)
    ensures Whole(SortedStretches([], n)) == []
  {
    if n > 0 {
      NothingSorted(n - 1);
      assert SortedStretches([], n)[..n - 1] == SortedStretches([], n - 1);
    }
  }

  lemma SortedStretchesHold(ms: seq<Marked>, n: nat)
    ensures InStretches(SortedStretches(ms, n))
  {
    forall k | 0 <= k < n ensures InStretch(SortedStretches(ms, n)[k], k) { PartIsInStretch(ms, k); }
  }

  lemma OneMoreSorted(ms: seq<Marked>, x: Marked, k: nat)
    ensures MarkedInOrder(OfStretch(ms + [x], k)) ==
            if k == x.stretch then MarkedPlaced(x, MarkedInOrder(OfStretch(ms, k))) else MarkedInOrder(OfStretch(ms, k))
  {
    OfStretchSnoc(ms, x, k);
    if k == x.stretch { InOrderSnoc(OfStretch(ms, k), x); } else { assert OfStretch(ms + [x], k) == OfStretch(ms, k); }
  }

  lemma OneMoreEvent(ms: seq<Marked>, x: Marked, n: nat)
    requires x.stretch < n
    ensures Whole(SortedStretches(ms + [x], n)) == MarkedPlaced(x, Whole(SortedStretches(ms, n)))
  {
    var parts, after := SortedStretches(ms, n), SortedStretches(ms + [x], n);
    SortedStretchesHold(ms, n);
    forall k | 0 <= k < n
      ensures after[k] == if k == x.stretch then MarkedPlaced(x, parts[k]) else parts[k]
    {
      OneMoreSorted(ms, x, k);
    }
    PlacedInOwn(x, parts, after);
  }

  /** Sorted by stretch first, the events come stretch after stretch. */
  lemma {:induction false} SortedStretchByStretch(ms: seq<Marked>, n: nat)
    requires forall i :: 0 <= i < |ms| ==> ms[i].stretch < n
    ensures MarkedInOrder(ms) == Whole(SortedStretches(ms, n))
  {
    if ms == [] {
      NothingSorted(n);
    } else {
      var init, last := ms[..|ms| - 1], ms[|ms| - 1];
      assert ms == init + [last];
      SortedStretchByStretch(init, n);
      OneMoreEvent(init, last, n);
    }
  }

  lemma {:induction false} EventsJoin(a: seq<Marked>, c: seq<Marked>)
    ensures EventsIn(a + c) == EventsIn(a) + EventsIn(c)
  {
    if c == [] {
      assert a + c == a;
    } else {
      EventsJoin(a, c[..|c| - 1]);
      assert (a + c)[..|a + c| - 1] == a + c[..|c| - 1];
    }
  }

  lemma {:induction false} AppliedJoin(s: State, a: seq<Event>, c: seq<Event>)
    ensures AppliedAll(s, a + c) == AppliedAll(AppliedAll(s, a), c)
  {
    if c == [] {
      assert a + c == a;
    } else {
      AppliedJoin(s, a, c[..|c| - 1]);
      assert (a + c)[..|a + c| - 1] == a + c[..|c| - 1];
    }
  }

  lemma {:induction false} StretchesReplay(s: State, runs: seq<seq<Event>>, parts: seq<seq<Marked>>)
    requires |runs| == |parts| && forall k :: 0 <= k < |runs| ==> AppliesLike(EventsIn(parts[k]), runs[k])
    ensures AppliedAll(s, EventsIn(Whole(parts))) == AppliedAll(s, Whole(runs))
  {
    if runs != [] {
      var n := |runs| - 1;
      StretchesReplay(s, runs[..n], parts[..n]);
      EventsJoin(Whole(parts[..n]), parts[n]);
      AppliedJoin(s, EventsIn(Whole(parts[..n])), EventsIn(parts[n]));
      AppliedJoin(s, Whole(runs[..n]), runs[n]);
      assert AppliesLike(EventsIn(parts[n]), runs[n]);
    }
  }

  /** Two lists of events do the same to any books. */
  ghost predicate AppliesLike(a: seq<Event>, b: seq<Event>) {
    forall s :: AppliedAll(s, a) == AppliedAll(s, b)
  }

  lemma PartReplays(es: seq<Event>, marks: seq<nat>, run: seq<Event>, k: nat)
    requires |marks| == |es| && HoldsRun(run, Part(es, marks, k))
    ensures AppliesLike(EventsIn(MarkedInOrder(OfStretch(Marks(es, marks), k))), run)
  {
    var own := OfStretch(Marks(es, marks), k);
    PartIsInStretch(Marks(es, marks), k);
    StretchInOrder(own, k);
    forall s
      ensures AppliedAll(s, EventsIn(MarkedInOrder(own))) == AppliedAll(s, run)
    {
      HeldReplays(s, run, Part(es, marks, k));
    }
  }

  // ------------------------------------------------------------------ what replay restores

  /** The order in which `replay` applies events, with what it is worked out from. */
  ghost predicate IsReplayOrder(
      es: seq<Event>, ordered: seq<Event>, order: seq<nat>, stretch: seq<nat>, marks: seq<nat>)
  {
    && ByWall(es, |es|, order) && Stretched(Along(es, order), stretch) && |marks| == |es|
    && (forall k :: 0 <= k < |es| ==> marks[order[k]] == stretch[k])
    && ordered == EventsIn(MarkedInOrder(Marks(es, marks)))
  }

  /** The list `replay` goes through. */
  ghost predicate Replays(es: seq<Event>, ordered: seq<Event>) {
    exists order, stretch, marks :: IsReplayOrder(es, ordered, order, stretch, marks)
  }

  /** Some event's reading lies further below that of an event before it by the wall clock than the limit. */
  ghost predicate Restarted(es: seq<Event>) {
    exists i, j :: 0 <= i < |es| && 0 <= j < |es| && WallBefore(es, i, j) && es[j].mono < es[i].mono - 600_000_000_000
  }

  lemma PlacesKeepOrder(es: seq<Event>, order: seq<nat>, a: nat, b: nat)
    requires ByWall(es, |es|, order) && a < |order| && b < |order| && WallBefore(es, order[a], order[b])
    ensures a < b
  {
  }

  lemma RestartedIff(es: seq<Event>, order: seq<nat>)
    requires ByWall(es, |es|, order)
    ensures Restarts(Along(es, order)) <==> Restarted(es)
  {
    var byWall := Along(es, order);
    if i, j :| 0 <= i < j < |byWall| && byWall[j].mono < byWall[i].mono - MONO_RESTART_NS {
      assert WallBefore(es, order[i], order[j]);
    }
    if i, j :| 0 <= i < |es| && 0 <= j < |es| && WallBefore(es, i, j) && es[j].mono < es[i].mono - MONO_RESTART_NS {
      assert Stands(order, i) && Stands(order, j);
      var a :| 0 <= a < |order| && order[a] == i;
      var b :| 0 <= b < |order| && order[b] == j;
      PlacesKeepOrder(es, order, a, b);
      assert byWall[a] == es[i] && byWall[b] == es[j];
    }
  }

  /** Without a restart the list is in the order of monotonic times and gaps alone. */
  lemma PlainOrder(es: seq<Event>, ordered: seq<Event>)
    requires Replays(es, ordered) && !Restarted(es)
    ensures ordered == InOrder(es)
  {
    var order, stretch, marks :| IsReplayOrder(es, ordered, order, stretch, marks);
    RestartedIff(es, order);
    OneStretchIff(Along(es, order), stretch);
    forall i | 0 <= i < |es| ensures marks[i] == 0 {
      assert Stands(order, i);
      var k :| 0 <= k < |order| && order[k] == i;
      assert stretch[k] == 0;
    }
    StretchInOrder(Marks(es, marks), 0);
    MarksHoldEvents(es, marks);
  }

  /** Baked into rows, shuffled, sorted, regrouped and replayed, a run leaves every book with the levels and the
      staleness it has after the run itself, whatever the wall clock said, if no restart shows. */
  lemma ReplayRestoresTheRun(
      s: State, run: seq<Event>, deltas: seq<Event>, rows: seq<Row>, snapshots: seq<Event>, gaps: seq<Event>,
      ordered: seq<Event>)
    requires Received(run) && DistinctStamps(run) && Archived(run, deltas, rows, gaps)
             && Regrouped(ByStamp(rows), snapshots)
    requires Replays(deltas + snapshots + gaps, ordered) && !Restarted(deltas + snapshots + gaps)
    ensures AppliedAll(s, ordered) == AppliedAll(s, run)
  {
    TablesHoldRun(run, deltas, rows, snapshots, gaps);
    PlainOrder(deltas + snapshots + gaps, ordered);
    HeldReplays(s, run, deltas + snapshots + gaps);
  }

  /** There is one way to number stretches. */
  lemma {:induction false} StretchedOnce(byWall: seq<Event>, a: seq<nat>, b: seq<nat>, n: nat)
    requires Stretched(byWall, a) && Stretched(byWall, b) && n <= |byWall|
    ensures a[..n] == b[..n]
  {
    if n == 1 {
      assert a[..1] == [0] && b[..1] == [0];
    } else if n > 1 {
      StretchedOnce(byWall, a, b, n - 1);
      SameStretchNext(byWall, a, b, n - 1);
      PrefixGrows(a, n - 1);
      PrefixGrows(b, n - 1);
    }
  }

  lemma SameStretchNext(byWall: seq<Event>, a: seq<nat>, b: seq<nat>, j: nat)
    requires Stretched(byWall, a) && Stretched(byWall, b) && 0 < j < |byWall| && a[..j] == b[..j]
    ensures a[j] == b[j]
  {
    var i := j - 1;
    assert a[..j][i] == a[i] && b[..j][i] == b[i];
    if a[j] != a[i] && b[j] == b[i] { FallsWithin(byWall, a, b, j); }
    if b[j] != b[i] && a[j] == a[i] { FallsWithin(byWall, b, a, j); }
  }

  /** A new stretch where another numbering goes on would leave that one a fall within. */
  lemma FallsWithin(byWall: seq<Event>, a: seq<nat>, b: seq<nat>, j: nat)
    requires Stretched(byWall, a) && Stretched(byWall, b) && 0 < j < |byWall| && a[..j] == b[..j]
    requires a[j] != a[j - 1]
    ensures b[j] != b[j - 1]
  {
    var i := j - 1;
    assert Falls(byWall, a, a[i], byWall[j].mono);
    var k :| 0 <= k < |a| && k < |byWall| && a[k] == a[i] && byWall[j].mono < byWall[k].mono - MONO_RESTART_NS;
    if k >= j { NeverBack(byWall, a, j, k); }
    assert a[..j][k] == a[k] && b[..j][k] == b[k] && a[..j][i] == a[i] && b[..j][i] == b[i];
  }

  /** A recording of a host that restarted, its runs one for each boot: if numbering the events by boot is what
      splitting them by the wall clock gives, replay does to the books what the runs do one after another. */
  lemma ReplayRestoresEveryBoot(
      s: State, runs: seq<seq<Event>>, es: seq<Event>, boots: seq<nat>, ordered: seq<Event>, order: seq<nat>,
      stretch: seq<nat>, marks: seq<nat>)
    requires IsReplayOrder(es, ordered, order, stretch, marks)
    requires |boots| == |es| && forall i :: 0 <= i < |es| ==> boots[i] < |runs|
    requires forall k :: 0 <= k < |runs| ==> HoldsRun(runs[k], Part(es, boots, k))
    requires Stretched(Along(es, order), NumbersAlong(boots, order))
    ensures AppliedAll(s, ordered) == AppliedAll(s, Whole(runs))
  {
    MarkedByBoot(es, boots, order, stretch, marks);
    SortedStretchByStretch(Marks(es, marks), |runs|);
    var parts := SortedStretches(Marks(es, marks), |runs|);
    forall k | 0 <= k < |runs| ensures AppliesLike(EventsIn(parts[k]), runs[k]) { PartReplays(es, marks, runs[k], k); }
    StretchesReplay(s, runs, parts);
  }

  function NumbersAlong(numbers: seq<nat>, order: seq<nat>): seq<nat>
    requires forall k :: 0 <= k < |order| ==> order[k] < |numbers|
  {
    seq(|order|, k requires 0 <= k < |order| => numbers[order[k]])
  }

  lemma MarkedByBoot(es: seq<Event>, boots: seq<nat>, order: seq<nat>, stretch: seq<nat>, marks: seq<nat>)
    requires ByWall(es, |es|, order) && Stretched(Along(es, order), stretch) && |marks| == |es| == |boots|
    requires forall k :: 0 <= k < |es| ==> marks[order[k]] == stretch[k]
    requires Stretched(Along(es, order), NumbersAlong(boots, order))
    ensures marks == boots
  {
    var along := NumbersAlong(boots, order);
    StretchedOnce(Along(es, order), stretch, along, |es|);
    assert stretch[..|es|] == stretch && along[..|es|] == along;
    forall i | 0 <= i < |es| ensures marks[i] == boots[i] {
      assert Stands(order, i);
      var k :| 0 <= k < |order| && order[k] == i;
      assert marks[order[k]] == stretch[k] == along[k];
    }
  }

  /** The order in which `replay` applies events: stretch, monotonic time, kind, place. */
  method ReplayOrder(es: seq<Event>) returns (ordered: seq<Event>, order: seq<nat>, stretch: seq<nat>, marks: seq<nat>)
    ensures IsReplayOrder(es, ordered, order, stretch, marks) && Replays(es, ordered)
    ensures !Restarted(es) ==> ordered == InOrder(es)
  {
    order := SortByWall(es);
    stretch := Stretches(Along(es, order));
    marks := seq(|es|, _ => 0);
    for k := 0 to |es|
      invariant |marks| == |es| && forall j :: 0 <= j < k ==> marks[order[j]] == stretch[j]
    {
      forall j | 0 <= j < k ensures order[j] != order[k] { assert WallBefore(es, order[j], order[k]); }
      marks := marks[order[k] := stretch[k]];
    }
    ordered := EventsIn(MarkedInOrder(Marks(es, marks)));
    assert IsReplayOrder(es, ordered, order, stretch, marks);
    if !Restarted(es) { PlainOrder(es, ordered); }
  }
}
