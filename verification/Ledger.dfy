/** What the state kept while reading an hour's records says, told by the records themselves:
    `src/tape/bake/interpret.py`. */
module Ledger {
  import opened Prelude
  import opened Counts
  import OrderBook
  import opened Interpret
  import Audit
  import Replay
  import Uptime

  // ------------------------------------------------------------------ markets followed

  /** The record is a delta or snapshot of the market, on this subscription. */
  ghost predicate Carries(x: Content, t: Ticker, sid: Key) {
    (x.Delta? || x.Snapshot?) && x.ticker == t && x.sid == sid
  }

  /** The record is a command that leaves the market: it names the market, or the subscription it came on. */
  ghost predicate Leaves(x: Content, t: Ticker, sid: Key) {
    x.Command? && match x.command
                  case DeleteMarkets(ts) => t in ts
                  case Unsubscribe(sids) => sid in sids
                  case _ => false
  }

  /** The market is followed since the record at `i`, which first carried it on `sid` after it was last left. */
  ghost predicate FollowedSince(recs: seq<Record>, t: Ticker, i: nat, sid: Key) {
    && i < |recs| && Carries(recs[i].content, t, sid) && t !in MarketsAfter(recs[..i])
    && forall j :: i < j < |recs| ==> !Leaves(recs[j].content, t, sid)
  }

  lemma FollowedNext(init: seq<Record>, r: Record, t: Ticker, i: nat, sid: Key)
    requires i < |init|
    ensures FollowedSince(init + [r], t, i, sid) <==> FollowedSince(init, t, i, sid) && !Leaves(r.content, t, sid)
  {
    var recs := init + [r];
    assert recs[..i] == init[..i] && recs[|init|] == r;
    assert forall j :: 0 <= j < |init| ==> recs[j] == init[j];
  }

  /** `i` and `sid` say since when and where the market is followed. */
  ghost predicate Follows(recs: seq<Record>, t: Ticker, m: Market) {
    exists i: nat :: FollowedSince(recs, t, i, m.sid) && m.since == recs[i].wall
  }

  lemma FollowsNext(init: seq<Record>, r: Record, t: Ticker, m: Market)
    requires Follows(init, t, m) && !Leaves(r.content, t, m.sid)
    ensures Follows(init + [r], t, m)
  {
    var i: nat :| FollowedSince(init, t, i, m.sid) && m.since == init[i].wall;
    FollowedNext(init, r, t, i, m.sid);
    assert (init + [r])[i] == init[i];
  }

  /** A market held is followed since some record, which gave it its subscription and the time it is followed from. */
  lemma {:induction false} HeldIsFollowed(recs: seq<Record>, t: Ticker)
    requires t in MarketsAfter(recs)
    ensures Follows(recs, t, MarketsAfter(recs)[t])
  {
    var init, r := recs[..|recs| - 1], recs[|recs| - 1];
    assert recs == init + [r] && recs[..|init|] == init;
    var m := MarketsAfter(recs)[t];
    if t in MarketsAfter(init) {
      HeldIsFollowed(init, t);
      var n := MarketsAfter(init)[t];
      assert n.sid == m.sid && n.since == m.since && !Leaves(r.content, t, n.sid);
      FollowsNext(init, r, t, n);
      var i: nat :| FollowedSince(recs, t, i, n.sid) && n.since == recs[i].wall;
    } else {
      assert FollowedSince(recs, t, |init|, m.sid);
    }
  }

  /** And a market followed since some record is held, as that record says. */
  lemma {:induction false} FollowedIsHeld(recs: seq<Record>, t: Ticker, i: nat, sid: Key)
    requires FollowedSince(recs, t, i, sid)
    ensures t in MarketsAfter(recs) && MarketsAfter(recs)[t].sid == sid && MarketsAfter(recs)[t].since == recs[i].wall
  {
    var init, r := recs[..|recs| - 1], recs[|recs| - 1];
    assert recs == init + [r] && recs[..|init|] == init;
    if i < |init| {
      FollowedNext(init, r, t, i, sid);
      FollowedIsHeld(init, t, i, sid);
    }
  }

  // ------------------------------------------------------------------ stale books

  ghost predicate SnapshotOf(x: Content, t: Ticker) {
    x.Snapshot? && x.ticker == t
  }

  /** A gap on the market's subscription that no snapshot of the market has followed. */
  ghost predicate Unhealed(recs: seq<Record>, t: Ticker, i: nat, sid: Key, g: nat) {
    && i < g < |recs| && recs[g].content.Gap? && recs[g].content.sid == sid
    && forall j :: g < j < |recs| ==> !SnapshotOf(recs[j].content, t)
  }

  ghost predicate FirstUnhealed(recs: seq<Record>, t: Ticker, i: nat, sid: Key, g: nat) {
    Unhealed(recs, t, i, sid, g) && forall h: nat :: h < g ==> !Unhealed(recs, t, i, sid, h)
  }

  lemma UnhealedNext(init: seq<Record>, r: Record, t: Ticker, i: nat, sid: Key, g: nat)
    requires g < |init|
    ensures Unhealed(init + [r], t, i, sid, g) <==> Unhealed(init, t, i, sid, g) && !SnapshotOf(r.content, t)
  {
    assert (init + [r])[|init|] == r && forall j :: 0 <= j < |init| ==> (init + [r])[j] == init[j];
  }

  /** What a market's staleness says of the records since `i`. */
  ghost predicate StaleAsSaid(recs: seq<Record>, t: Ticker, i: nat, sid: Key, since: Option<int>) {
    match since
    case None => forall g: nat :: !Unhealed(recs, t, i, sid, g)
    case Some(w) => exists g: nat :: FirstUnhealed(recs, t, i, sid, g) && recs[g].wall == w
  }

  lemma StaleStays(init: seq<Record>, r: Record, t: Ticker, i: nat, sid: Key, since: Option<int>)
    requires StaleAsSaid(init, t, i, sid, since) && !SnapshotOf(r.content, t)
    requires since.Some? || !(r.content.Gap? && r.content.sid == sid)
    ensures StaleAsSaid(init + [r], t, i, sid, since)
  {
    var recs := init + [r];
    assert recs[|init|] == r;
    forall g: nat | g < |init| ensures Unhealed(recs, t, i, sid, g) <==> Unhealed(init, t, i, sid, g) {
      UnhealedNext(init, r, t, i, sid, g);
    }
    if since.Some? {
      var g: nat :| FirstUnhealed(init, t, i, sid, g) && init[g].wall == since.value;
      assert recs[g] == init[g] && FirstUnhealed(recs, t, i, sid, g);
    }
  }

  lemma StaleBegins(init: seq<Record>, r: Record, t: Ticker, i: nat, sid: Key)
    requires StaleAsSaid(init, t, i, sid, None) && r.content.Gap? && r.content.sid == sid && i < |init|
    ensures StaleAsSaid(init + [r], t, i, sid, Some(r.wall))
  {
    var recs := init + [r];
    assert recs[|init|] == r;
    forall h: nat | h < |init| ensures !Unhealed(recs, t, i, sid, h) {
      UnhealedNext(init, r, t, i, sid, h);
    }
    assert FirstUnhealed(recs, t, i, sid, |init|);
  }

  lemma StaleEnds(init: seq<Record>, r: Record, t: Ticker, i: nat, sid: Key)
    requires SnapshotOf(r.content, t)
    ensures StaleAsSaid(init + [r], t, i, sid, None)
  {
    var recs := init + [r];
    assert recs[|init|] == r;
  }

  /** A followed market's book is stale exactly while some gap on its subscription since has not been followed by its
      snapshot, and stale since the first such gap. */
  lemma {:induction false} StaleSinceGap(recs: seq<Record>, t: Ticker, i: nat, sid: Key)
    requires FollowedSince(recs, t, i, sid)
    ensures t in MarketsAfter(recs) && StaleAsSaid(recs, t, i, sid, MarketsAfter(recs)[t].staleSince)
  {
    FollowedIsHeld(recs, t, i, sid);
    var init, r := recs[..|recs| - 1], recs[|recs| - 1];
    assert recs == init + [r] && recs[..|init|] == init;
    if i < |init| {
      FollowedNext(init, r, t, i, sid);
      FollowedIsHeld(init, t, i, sid);
      StaleSinceGap(init, t, i, sid);
      var since := MarketsAfter(init)[t].staleSince;
      if SnapshotOf(r.content, t) {
        StaleEnds(init, r, t, i, sid);
      } else if r.content.Gap? && r.content.sid == sid && since.None? {
        StaleBegins(init, r, t, i, sid);
      } else {
        StaleStays(init, r, t, i, sid, since);
        assert MarketsAfter(recs)[t].staleSince == since;
      }
    } else {
      assert MarketsAfter(recs)[t].staleSince == None;
    }
  }

  // ------------------------------------------------------------------ subscriptions and requests

  /** A subscription carries books once a delta or snapshot came on it, or a reply said that it is one of books. */
  lemma {:induction false} CarriesBooksIff(recs: seq<Record>, sid: Key)
    ensures sid in SidsAfter(recs) <==>
              exists i :: 0 <= i < |recs| && ShowsBooks(recs[i].content, sid)
  {
    if recs != [] {
      var init, r := recs[..|recs| - 1], recs[|recs| - 1];
      CarriesBooksIff(init, sid);
      if i :| 0 <= i < |init| && ShowsBooks(init[i].content, sid) { assert recs[i] == init[i]; }
      if i :| 0 <= i < |recs| && ShowsBooks(recs[i].content, sid) {
        if i < |init| { assert recs[i] == init[i]; }
      }
      assert ShowsBooks(r.content, sid) ==> recs[|recs| - 1] == r;
    }
  }

  ghost predicate ShowsBooks(x: Content, sid: Key) {
    match x
    case Delta(_, s, _, _, _, _) => s == sid
    case Snapshot(_, s, _, _, _) => s == sid
    case Subscribed(s, orderbook) => s == sid && orderbook
    case _ => false
  }

  /** The record at `i` asks for the snapshot, and it has not come since. */
  ghost predicate AskedSince(recs: seq<Record>, sid: Key, t: Ticker, i: nat) {
    && i < |recs| && Asks(recs[i].content, sid, t)
    && forall j :: i < j < |recs| ==> !IsSnapshotOf(recs[j].content, sid, t)
  }

  lemma AskedNext(init: seq<Record>, r: Record, sid: Key, t: Ticker, i: nat)
    requires i < |init|
    ensures AskedSince(init + [r], sid, t, i) <==> AskedSince(init, sid, t, i) && !IsSnapshotOf(r.content, sid, t)
  {
    assert (init + [r])[|init|] == r && forall j :: 0 <= j < |init| ==> (init + [r])[j] == init[j];
  }

  ghost predicate Requested(recs: seq<Record>, sid: Key, t: Ticker) {
    exists i: nat :: AskedSince(recs, sid, t, i)
  }

  lemma RequestedNext(init: seq<Record>, r: Record, sid: Key, t: Ticker)
    ensures Requested(init + [r], sid, t)
            <==> Asks(r.content, sid, t) || (Requested(init, sid, t) && !IsSnapshotOf(r.content, sid, t))
  {
    var recs := init + [r];
    assert recs[|init|] == r;
    if Asks(r.content, sid, t) { assert AskedSince(recs, sid, t, |init|); }
    if Requested(init, sid, t) {
      var i: nat :| AskedSince(init, sid, t, i);
      AskedNext(init, r, sid, t, i);
    }
    if Requested(recs, sid, t) {
      var i: nat :| AskedSince(recs, sid, t, i);
      if i < |init| { AskedNext(init, r, sid, t, i); }
    }
  }

  /** A snapshot counts as asked for exactly from a command that asks for it to the record that brings it. */
  lemma {:induction false} RequestedIff(recs: seq<Record>, sid: Key, t: Ticker)
    ensures t in AskedOn(RequestsAfter(recs), sid) <==> Requested(recs, sid, t)
  {
    if recs != [] {
      var init, r := recs[..|recs| - 1], recs[|recs| - 1];
      assert recs == init + [r];
      RequestedIff(init, sid, t);
      RequestedNext(init, r, sid, t);
    }
  }

  /** Whether a market was snapshotted on a subscription. */
  lemma {:induction false} SnapshottedIff(recs: seq<Record>, sid: Key, t: Ticker)
    ensures (sid, t) in SnapshottedAfter(recs) <==> exists i :: 0 <= i < |recs| && IsSnapshotOf(recs[i].content, sid, t)
  {
    if recs != [] {
      var init, r := recs[..|recs| - 1], recs[|recs| - 1];
      SnapshottedIff(init, sid, t);
      if i :| 0 <= i < |init| && IsSnapshotOf(init[i].content, sid, t) { assert recs[i] == init[i]; }
      if i :| 0 <= i < |recs| && IsSnapshotOf(recs[i].content, sid, t) {
        if i < |init| { assert recs[i] == init[i]; }
      }
      assert recs[|recs| - 1] == r;
    }
  }

  // ------------------------------------------------------------------ rows and counts

  /** Exactly the rows that stand for the record at `i` of a segment, written out. Its place in the segment, its
      receipt and what it carries are all in them; an empty snapshot has one row of no side. */
  ghost predicate RowsSay(rows: seq<Row>, r: Record, reason: Reason, resolved: Option<int>) {
    match r.content
    case Delta(t, sid, seqNo, side, price, delta) =>
      rows == [DeltaRow(Replay.Event(r.wall, r.mono, seqNo, Replay.Delta(t, r.conn, sid, side, price, delta)))]
    case Snapshot(t, sid, seqNo, bids, asks) =>
      var stamp := Replay.Stamp(t, r.wall, r.conn, sid, seqNo);
      if bids == [] && asks == []
      then rows == [SnapshotRow(Replay.Row(stamp, r.mono, Replay.EmptyCell, Key(0), 0), reason)]
      else
        && |rows| == |bids| + |asks|
        && forall k :: 0 <= k < |rows| ==>
             rows[k] == SnapshotRow(
               if k < |bids| then Replay.Row(stamp, r.mono, Replay.BidCell, bids[k].price, bids[k].count)
               else Replay.Row(stamp, r.mono, Replay.AskCell, asks[k - |bids|].price, asks[k - |bids|].count), reason)
    case Gap(sid, expected, got) =>
      rows == [GapRow(Replay.Event(r.wall, r.mono, got, Replay.Gap(r.conn, sid)), expected, resolved)]
    case Trade(detail) => rows == [TradeRow(detail)]
    case Lifecycle(lifecycle, detail) => rows == [LifecycleRow(lifecycle, detail)]
    case Audited(detail, _, _) => rows == [AuditRow(detail)]
    case _ => rows == []
  }

  lemma {:induction false} CellsAt(stamp: Replay.Stamp, mono: int, cell: Replay.Cell, ls: seq<OrderBook.Level>, k: nat)
    requires k < |ls|
    ensures |Replay.CellRows(stamp, mono, cell, ls)| == |ls|
    ensures Replay.CellRows(stamp, mono, cell, ls)[k] == Replay.Row(stamp, mono, cell, ls[k].price, ls[k].count)
  {
    var init := ls[..|ls| - 1];
    if init != [] { CellsAt(stamp, mono, cell, init, if k < |init| then k else 0); }
  }

  lemma {:induction false} CellsOfAt(rows: seq<Replay.Row>, reason: Reason, k: nat)
    requires k < |rows|
    ensures |CellsOf(rows, reason)| == |rows| && CellsOf(rows, reason)[k] == SnapshotRow(rows[k], reason)
  {
    var init := rows[..|rows| - 1];
    if init != [] { CellsOfAt(init, reason, if k < |init| then k else 0); }
  }

  lemma SnapshotSays(r: Record, reason: Reason)
    requires r.content.Snapshot?
    ensures RowsSay(CellsOf(Replay.RowsOf(SnapshotEvent(r)), reason), r, reason, None)
  {
    var x := r.content;
    var e := SnapshotEvent(r);
    var stamp := Replay.Stamp(x.ticker, r.wall, r.conn, x.sid, x.seqNo);
    var all, rows := Replay.RowsOf(e), CellsOf(Replay.RowsOf(e), reason);
    CellsOfAt(all, reason, 0);
    if x.bids != [] { CellsAt(stamp, r.mono, Replay.BidCell, x.bids, 0); }
    if x.asks != [] { CellsAt(stamp, r.mono, Replay.AskCell, x.asks, 0); }
    if x.bids != [] || x.asks != [] {
      assert all == Replay.SideRows(e);
      forall k | 0 <= k < |rows|
        ensures rows[k] == SnapshotRow(
                  if k < |x.bids| then Replay.Row(stamp, r.mono, Replay.BidCell, x.bids[k].price, x.bids[k].count)
                  else Replay.Row(stamp, r.mono, Replay.AskCell, x.asks[k - |x.bids|].price,
                         x.asks[k - |x.bids|].count), reason)
      {
        CellsOfAt(all, reason, k);
        if k < |x.bids| {
          CellsAt(stamp, r.mono, Replay.BidCell, x.bids, k);
        } else {
          CellsAt(stamp, r.mono, Replay.AskCell, x.asks, k - |x.bids|);
        }
      }
    }
  }

  /** The tables say of every record of a segment what it carries: a snapshot with the reason its history gives it, a
      gap with the wall time it was resolved at. */
  lemma EveryRecordHasItsRows(s: Start, recs: seq<Record>, i: nat)
    requires i < |recs|
    ensures RowsSay(RowsAt(SegmentRows(s, recs), Place(s.name, i)), recs[i],
              if !recs[i].content.Snapshot? then Initial
              else if SnapshotBefore(recs[..i], recs[i].content.sid, recs[i].content.ticker) then Resync
              else if i > 0 && recs[0].content.Connection? && s.afterLost
                      && (recs[0].content.happening.Opened? || recs[0].content.happening.Errored?) then Reconnect
              else Initial,
              if recs[i].content.Gap? then ResolvedAt(recs, i) else None)
  {
    RowsAreMeant(s, recs, i);
    assert i > 0 ==> recs[..i][0] == recs[0];
    if recs[i].content.Snapshot? {
      var x := recs[i].content;
      SnapshotSays(recs[i], if SnapshotBefore(recs[..i], x.sid, x.ticker) then Resync
                            else if Opens(recs[..i]) && s.afterLost then Reconnect else Initial);
    }
  }

  /** The table a row is of, as what is counted for it. */
  function TableOf(row: Row): BakedAs {
    match row
    case DeltaRow(_) => AsDelta
    case SnapshotRow(_, _) => AsSnapshot
    case GapRow(_, _, _) => AsGap
    case TradeRow(_) => AsTrade
    case LifecycleRow(lifecycle, _) => AsLifecycle(lifecycle)
    case AuditRow(_) => AsAudit
  }

  /** A record has rows exactly when it is counted as baked, and all of them in the table it is counted for; what is
      not baked is counted as the reply, command or connection event it is, and as failed only what does not decode. */
  lemma CountedAsItsRows(s: Start, recs: seq<Record>, i: nat)
    requires i < |recs|
    ensures var rows := RowsAt(SegmentRows(s, recs), Place(s.name, i)); var o := OutcomeOf(recs[i].content);
            && (rows != [] <==> o.Baked?)
            && forall k :: 0 <= k < |rows| ==> o == Baked(TableOf(rows[k]))
  {
    EveryRecordHasItsRows(s, recs, i);
    var r := recs[i];
    var reason := if !r.content.Snapshot? then Initial
      else if SnapshotBefore(recs[..i], r.content.sid, r.content.ticker) then Resync
      else if i > 0 && recs[0].content.Connection? && s.afterLost
              && (recs[0].content.happening.Opened? || recs[0].content.happening.Errored?) then Reconnect
      else Initial;
    SaidIsCounted(RowsAt(SegmentRows(s, recs), Place(s.name, i)), r, reason,
      if r.content.Gap? then ResolvedAt(recs, i) else None);
  }

  lemma SaidIsCounted(rows: seq<Row>, r: Record, reason: Reason, resolved: Option<int>)
    requires RowsSay(rows, r, reason, resolved)
    ensures rows != [] <==> OutcomeOf(r.content).Baked?
    ensures forall k :: 0 <= k < |rows| ==> OutcomeOf(r.content) == Baked(TableOf(rows[k]))
  {
  }

  /** What did not decode, the record kind it was read as, and the class it fails under. */
  lemma FailsWhenBroken(x: Content)
    ensures OutcomeOf(x).Failed? <==> x.BrokenEnvelope? || x.UnknownFrame? || x.BrokenFrame? || x.BrokenCommand?
                                      || x.BrokenGap? || x.BrokenAudit? || x.BrokenConnection?
    ensures KindOf(x) == CommandKind <==> OutcomeOf(x) in {Failed(CommandPayload), NotBaked(AsCommand)}
    ensures KindOf(x) == GapKind <==> OutcomeOf(x) in {Failed(GapPayload), Baked(AsGap)}
    ensures KindOf(x) == AuditKind <==> OutcomeOf(x) in {Failed(AuditPayload), Baked(AsAudit)}
    ensures KindOf(x) == ConnectionKind <==> OutcomeOf(x) in {Failed(ConnectionPayload), NotBaked(AsConnection)}
    ensures x.BrokenCommand? || x.Command? <==> KindOf(x) == CommandKind
    ensures x.BrokenGap? || x.Gap? <==> KindOf(x) == GapKind
    ensures x.BrokenAudit? || x.Audited? <==> KindOf(x) == AuditKind
    ensures x.BrokenConnection? || x.Connection? <==> KindOf(x) == ConnectionKind
    ensures OutcomeOf(x) == Failed(FrameEnvelope) <==> x.BrokenEnvelope?
    ensures OutcomeOf(x) == Failed(FrameUnknownType) <==> x.UnknownFrame?
    ensures OutcomeOf(x) == Failed(FramePayload) <==> x.BrokenFrame?
    ensures forall l :: OutcomeOf(x) == NotBaked(AsReply(l)) <==> x == Reply(l)
    ensures OutcomeOf(x) == NotBaked(AsSubscribed) <==> x.Subscribed?
  {
  }

  // ------------------------------------------------------------------ connections

  /** The record opens, closes or breaks the connection. */
  ghost predicate Turns(x: Content) {
    x.Connection? && (x.happening.Opened? || x.happening.Closed? || x.happening.Errored?)
  }

  /** The last such record. */
  ghost predicate LastTurn(recs: seq<Record>, i: nat) {
    i < |recs| && Turns(recs[i].content) && forall j :: i < j < |recs| ==> !Turns(recs[j].content)
  }

  lemma {:induction false} LastEventIs(recs: seq<Record>)
    ensures LastEvent(recs).None? <==> forall i :: 0 <= i < |recs| ==> !Turns(recs[i].content)
    ensures LastEvent(recs).Some? ==>
              exists i: nat :: LastTurn(recs, i) && recs[i].content == Connection(LastEvent(recs).value)
  {
    if recs != [] {
      var init, r := recs[..|recs| - 1], recs[|recs| - 1];
      assert recs == init + [r];
      LastEventIs(init);
      if Turns(r.content) {
        assert LastTurn(recs, |init|);
      } else if LastEvent(init).Some? {
        var i: nat :| LastTurn(init, i) && init[i].content == Connection(LastEvent(init).value);
        assert LastTurn(recs, i) && recs[i] == init[i];
      } else {
        assert forall i :: 0 <= i < |init| ==> recs[i] == init[i];
      }
    }
  }

  lemma OneLastTurn(recs: seq<Record>, i: nat, j: nat)
    requires LastTurn(recs, i) && LastTurn(recs, j)
    ensures i == j
  {
  }

  /** A connection is lost by the end of a segment exactly when the last record that opens, closes or breaks it says
      that it closed unasked. */
  lemma LostIff(recs: seq<Record>)
    ensures Lost(recs) <==> exists i: nat :: LastTurn(recs, i) && recs[i].content == Connection(Closed(false))
  {
    LastEventIs(recs);
    if i: nat :| LastTurn(recs, i) && recs[i].content == Connection(Closed(false)) {
      var j: nat :| LastTurn(recs, j) && recs[j].content == Connection(LastEvent(recs).value);
      OneLastTurn(recs, i, j);
    }
  }

  /** The segment at `k` is the connection's last. */
  ghost predicate LastOf(segments: seq<Segment>, conn: Key, k: nat) {
    k < |segments| && segments[k].conn == conn && forall j :: k < j < |segments| ==> segments[j].conn != conn
  }

  lemma LastOfNext(init: seq<Segment>, x: Segment, conn: Key, k: nat)
    requires k < |init|
    ensures LastOf(init + [x], conn, k) <==> LastOf(init, conn, k) && x.conn != conn
  {
    assert (init + [x])[|init|] == x && forall j :: 0 <= j < |init| ==> (init + [x])[j] == init[j];
  }

  /** And before a segment of the connection exactly when that was so of its last one in the hour. */
  lemma {:induction false} LostBeforeIff(segments: seq<Segment>, conn: Key)
    ensures LostBefore(segments, conn) <==> exists k: nat :: LastOf(segments, conn, k) && Lost(segments[k].records)
  {
    if segments != [] {
      var init, x := segments[..|segments| - 1], segments[|segments| - 1];
      assert segments == init + [x];
      LostBeforeIff(init, conn);
      if x.conn == conn {
        assert LastOf(segments, conn, |init|);
      } else {
        if k: nat :| LastOf(init, conn, k) && Lost(init[k].records) {
          LastOfNext(init, x, conn, k);
          assert segments[k] == init[k];
        }
        if k: nat :| LastOf(segments, conn, k) && Lost(segments[k].records) {
          assert k < |init|;
          LastOfNext(init, x, conn, k);
          assert segments[k] == init[k];
        }
      }
    }
  }

  // ------------------------------------------------------------------ spans

  /** The record opens or closes the connection. */
  ghost predicate Switches(x: Content) {
    x.Connection? && (x.happening.Opened? || x.happening.Closed?)
  }

  /** The connection is open since the record at `i`, which opened it. */
  ghost predicate OpenSince(recs: seq<Record>, i: nat) {
    i < |recs| && recs[i].content == Connection(Opened) && forall j :: i < j < |recs| ==> !Switches(recs[j].content)
  }

  /** Or since before the segment: its first record does not open or break it, and none opens or closes it. */
  ghost predicate OpenThroughout(recs: seq<Record>) {
    recs != [] && !Opens(recs[..1]) && forall j :: 0 <= j < |recs| ==> !Switches(recs[j].content)
  }

  lemma OpenNext(init: seq<Record>, r: Record, i: nat)
    requires i < |init|
    ensures OpenSince(init + [r], i) <==> OpenSince(init, i) && !Switches(r.content)
  {
    assert (init + [r])[|init|] == r && forall j :: 0 <= j < |init| ==> (init + [r])[j] == init[j];
  }

  lemma OpenThroughoutNext(init: seq<Record>, r: Record)
    requires init != []
    ensures OpenThroughout(init + [r]) <==> OpenThroughout(init) && !Switches(r.content)
  {
    var recs := init + [r];
    assert recs[..1] == init[..1] && recs[|init|] == r;
    assert forall j :: 0 <= j < |init| ==> recs[j] == init[j];
  }

  /** What is kept of an open connection says since when it is open, and whether this segment saw it open. */
  ghost predicate OpeningIs(hourStart: int, recs: seq<Record>, opening: Option<Opening>) {
    match opening
    case None => !OpenThroughout(recs) && forall i: nat :: !OpenSince(recs, i)
    case Some(o) =>
      if o.openedHere then exists i: nat :: OpenSince(recs, i) && o.at == recs[i].wall
      else OpenThroughout(recs) && o.at == hourStart
  }

  lemma OpeningFirst(hourStart: int, r: Record)
    ensures OpeningIs(hourStart, [r], OpeningAfter(hourStart, [r]))
  {
    var recs := [r];
    assert recs[..0] == [] && recs[..1] == recs && forall j :: 0 <= j < |recs| ==> recs[j] == r;
    assert OpeningAfter(hourStart, recs) == OpeningNext(OpeningBefore(hourStart, [], r), r);
    if r.content == Connection(Opened) {
      assert OpenSince(recs, 0);
    } else if Switches(r.content) {
      assert OpeningAfter(hourStart, recs).None?;
      assert Switches(recs[0].content);
    }
  }

  lemma OpeningOn(hourStart: int, init: seq<Record>, r: Record, o: Option<Opening>)
    requires init != [] && OpeningIs(hourStart, init, o)
    ensures OpeningIs(hourStart, init + [r], OpeningNext(o, r))
  {
    var recs := init + [r];
    assert recs[|init|] == r && forall j :: 0 <= j < |init| ==> recs[j] == init[j];
    OpenThroughoutNext(init, r);
    forall i: nat | i < |init| ensures OpenSince(recs, i) <==> OpenSince(init, i) && !Switches(r.content) {
      OpenNext(init, r, i);
    }
    if r.content == Connection(Opened) {
      assert OpenSince(recs, |init|);
    } else {
      assert !OpenSince(recs, |init|);
      if o.Some? && o.value.openedHere {
        var i: nat :| OpenSince(init, i) && o.value.at == init[i].wall;
        assert i < |init| && recs[i] == init[i];
      }
    }
  }

  lemma {:induction false} OpeningSays(hourStart: int, recs: seq<Record>)
    requires recs != []
    ensures OpeningIs(hourStart, recs, OpeningAfter(hourStart, recs))
  {
    var init, r := recs[..|recs| - 1], recs[|recs| - 1];
    assert recs == init + [r];
    if init == [] {
      OpeningFirst(hourStart, r);
    } else {
      OpeningSays(hourStart, init);
      OpeningOn(hourStart, init, r, OpeningAfter(hourStart, init));
    }
  }

  /** The first record after `from` that opens or closes the connection. */
  ghost predicate NextSwitch(recs: seq<Record>, from: nat, j: nat) {
    from <= j < |recs| && Switches(recs[j].content) && forall k :: from <= k < j ==> !Switches(recs[k].content)
  }

  /** The span is the one that began with the record at `i`, or before the segment if `i` is none: it ends with the next
      record that opens or closes the connection, or with the last record if there is none, and was closed if that
      record closed it. */
  ghost predicate SpanOf(conn: Key, hourStart: int, recs: seq<Record>, x: Uptime.Span, i: Option<nat>) {
    && recs != [] && x.conn == conn && x.opens == i.Some?
    && (match i
        case Some(n) => n < |recs| && recs[n].content == Connection(Opened) && x.start == recs[n].wall
        case None => !Opens(recs[..1]) && x.start == hourStart)
    && var from := if i.Some? then i.value + 1 else 0;
       if NoSwitch(recs, from) then !x.closes && x.end == Max(x.start, recs[|recs| - 1].wall)
       else exists j: nat :: NextSwitch(recs, from, j) && EndsAt(x, recs[j])
  }

  ghost predicate NoSwitch(recs: seq<Record>, from: nat) {
    forall k :: from <= k < |recs| ==> !Switches(recs[k].content)
  }

  ghost predicate EndsAt(x: Uptime.Span, r: Record) {
    x.end == Max(x.start, r.wall) && (x.closes <==> r.content.Connection? && r.content.happening.Closed?)
  }

  /** A span that another record ended stays what it is. */
  lemma EndedSpanStays(conn: Key, hourStart: int, init: seq<Record>, r: Record, x: Uptime.Span, i: Option<nat>)
    requires SpanOf(conn, hourStart, init, x, i) && !NoSwitch(init, if i.Some? then i.value + 1 else 0)
    ensures SpanOf(conn, hourStart, init + [r], x, i)
    ensures !NoSwitch(init + [r], if i.Some? then i.value + 1 else 0)
  {
    var recs := init + [r];
    var from := if i.Some? then i.value + 1 else 0;
    assert forall k :: 0 <= k < |init| ==> recs[k] == init[k];
    assert recs[..1] == init[..1];
    var j: nat :| NextSwitch(init, from, j) && EndsAt(x, init[j]);
    assert NextSwitch(recs, from, j) && EndsAt(x, recs[j]);
  }

  /** The spans that records of the segment ended. */
  ghost predicate AllEnded(conn: Key, hourStart: int, recs: seq<Record>, spans: seq<Uptime.Span>) {
    forall k :: 0 <= k < |spans| ==> Ended(conn, hourStart, recs, spans[k])
  }

  ghost predicate Ended(conn: Key, hourStart: int, recs: seq<Record>, x: Uptime.Span) {
    exists i: Option<nat> :: SpanOf(conn, hourStart, recs, x, i)
                             && !NoSwitch(recs, if i.Some? then i.value + 1 else 0)
  }

  lemma EndedStays(conn: Key, hourStart: int, init: seq<Record>, r: Record, x: Uptime.Span)
    requires Ended(conn, hourStart, init, x)
    ensures Ended(conn, hourStart, init + [r], x)
  {
    var i: Option<nat> :| SpanOf(conn, hourStart, init, x, i) && !NoSwitch(init, if i.Some? then i.value + 1 else 0);
    EndedSpanStays(conn, hourStart, init, r, x, i);
  }

  /** What ends with this record. */
  lemma EndsHere(conn: Key, hourStart: int, init: seq<Record>, r: Record, o: Opening)
    requires init != [] && OpeningIs(hourStart, init, Some(o)) && Switches(r.content)
    ensures Ended(conn, hourStart, init + [r], SpanTo(conn, o, r.wall, r.content.happening.Closed?))
  {
    var recs, x := init + [r], SpanTo(conn, o, r.wall, r.content.happening.Closed?);
    assert recs[|init|] == r && forall k :: 0 <= k < |init| ==> recs[k] == init[k];
    assert recs[..1] == init[..1];
    if o.openedHere {
      var i: nat :| OpenSince(init, i) && o.at == init[i].wall;
      assert NextSwitch(recs, i + 1, |init|) && EndsAt(x, recs[|init|]);
      assert SpanOf(conn, hourStart, recs, x, Some(i));
    } else {
      assert NextSwitch(recs, 0, |init|) && EndsAt(x, recs[|init|]);
      assert SpanOf(conn, hourStart, recs, x, None);
    }
  }

  lemma EndsFirst(conn: Key, hourStart: int, r: Record)
    requires Switches(r.content) && !Opens([r])
    ensures Ended(conn, hourStart, [r], SpanTo(conn, Opening(hourStart, false), r.wall, r.content.happening.Closed?))
  {
    var recs, x := [r], SpanTo(conn, Opening(hourStart, false), r.wall, r.content.happening.Closed?);
    assert recs[..1] == recs && recs[0] == r;
    assert NextSwitch(recs, 0, 0) && EndsAt(x, recs[0]);
    assert SpanOf(conn, hourStart, recs, x, None);
  }

  lemma {:induction false} EndedSpans(conn: Key, hourStart: int, recs: seq<Record>)
    ensures AllEnded(conn, hourStart, recs, SpansAfter(conn, hourStart, recs))
  {
    if recs != [] {
      var init, r := recs[..|recs| - 1], recs[|recs| - 1];
      assert recs == init + [r];
      EndedSpans(conn, hourStart, init);
      var before := SpansAfter(conn, hourStart, init);
      forall k | 0 <= k < |before| ensures Ended(conn, hourStart, recs, before[k]) {
        EndedStays(conn, hourStart, init, r, before[k]);
      }
      if Switches(r.content) {
        if init == [] {
          if !Opens([r]) { EndsFirst(conn, hourStart, r); }
        } else {
          OpeningSays(hourStart, init);
          var o := OpeningAfter(hourStart, init);
          if o.Some? { EndsHere(conn, hourStart, init, r, o.value); }
        }
      }
    }
  }

  /** The spans of a segment are just those: each began with a record that opened the connection or before the segment,
      and ended as said. */
  lemma SpansAreThose(conn: Key, hourStart: int, recs: seq<Record>, x: Uptime.Span)
    requires x in SegmentSpans(conn, hourStart, recs)
    ensures exists i: Option<nat> :: SpanOf(conn, hourStart, recs, x, i)
  {
    EndedSpans(conn, hourStart, recs);
    var spans := SpansAfter(conn, hourStart, recs);
    if x in spans {
      var k :| 0 <= k < |spans| && spans[k] == x;
      assert Ended(conn, hourStart, recs, spans[k]);
    } else {
      LastIsOpen(conn, hourStart, recs, x);
    }
  }

  lemma LastIsOpen(conn: Key, hourStart: int, recs: seq<Record>, x: Uptime.Span)
    requires x in LastSpan(conn, hourStart, recs)
    ensures exists i: Option<nat> :: SpanOf(conn, hourStart, recs, x, i)
  {
    OpeningSays(hourStart, recs);
    var o := OpeningAfter(hourStart, recs).value;
    if o.openedHere {
      var i: nat :| OpenSince(recs, i) && o.at == recs[i].wall;
      assert NoSwitch(recs, i + 1);
      assert SpanOf(conn, hourStart, recs, x, Some(i));
    } else {
      assert NoSwitch(recs, 0);
      assert SpanOf(conn, hourStart, recs, x, None);
    }
  }

  function Openings(recs: seq<Record>): nat {
    if recs == [] then 0 else
      Openings(recs[..|recs| - 1]) + (if recs[|recs| - 1].content == Connection(Opened) then 1 else 0)
  }

  lemma {:induction false} OpeningsCount(conn: Key, hourStart: int, recs: seq<Record>)
    requires recs != []
    ensures |SpansAfter(conn, hourStart, recs)| + (if OpeningAfter(hourStart, recs).Some? then 1 else 0)
            == Openings(recs) + if Opens(recs[..1]) then 0 else 1
  {
    var init, r := recs[..|recs| - 1], recs[|recs| - 1];
    if init == [] {
      assert recs == [r] && recs[..1] == [r];
    } else {
      OpeningsCount(conn, hourStart, init);
      assert recs[..1] == init[..1];
    }
  }

  /** And there is one for each record that opened the connection, and one more if it was open before. */
  lemma OneSpanEach(conn: Key, hourStart: int, recs: seq<Record>)
    requires recs != []
    ensures |SegmentSpans(conn, hourStart, recs)| == Openings(recs) + if Opens(recs[..1]) then 0 else 1
  {
    OpeningsCount(conn, hourStart, recs);
  }

  // ------------------------------------------------------------------ sleeps, overflows and audits

  /** The clock jump says that the machine slept: wall time went on further than monotonic time did. */
  ghost predicate Sleeps(r: Record, i: Uptime.Interval) {
    && r.content.Connection? && r.content.happening.ClockJump?
    && var h := r.content.happening;
       h.wallDelta.Some? && h.monoDelta.Some? && h.wallDelta.value > h.monoDelta.value
       && i.end == r.wall && i.end - i.start == h.wallDelta.value - h.monoDelta.value
  }

  /** The sleeps are those that clock jumps show, each up to the moment it was noticed. */
  lemma {:induction false} SleepsIff(f: Facts, recs: seq<Record>, i: Uptime.Interval)
    ensures i in FactsAfter(f, recs).sleeps <==>
              i in f.sleeps || exists k :: 0 <= k < |recs| && Sleeps(recs[k], i)
  {
    if recs != [] {
      var init, r := recs[..|recs| - 1], recs[|recs| - 1];
      assert recs == init + [r];
      SleepsIff(f, init, i);
      assert forall k :: 0 <= k < |init| ==> recs[k] == init[k];
      assert i in FactsAfter(f, recs).sleeps <==> i in FactsAfter(f, init).sleeps || Sleeps(r, i);
      if Sleeps(r, i) { assert recs[|init|] == r; }
      if k :| 0 <= k < |recs| && Sleeps(recs[k], i) { assert k == |init| || init[k] == recs[k]; }
    }
  }

  /** How many records an overflow dropped. */
  function DroppedBy(x: Content): nat {
    match x
    case Connection(WriterOverflow(Some(n))) => n
    case _ => 0
  }

  /** The markets an audit found to differ; one that could not decide found none. */
  function MismatchedBy(x: Content): nat {
    match x
    case Audited(_, outcome, Some(n)) => if outcome == Audit.Undecidable then 0 else n
    case _ => 0
  }

  function Audits(recs: seq<Record>, outcome: Audit.Outcome): nat {
    if recs == [] then 0 else
      (if recs[0].content.Audited? && recs[0].content.outcome == outcome then 1 else 0) + Audits(recs[1..], outcome)
  }

  function Dropped(recs: seq<Record>): nat {
    if recs == [] then 0 else DroppedBy(recs[0].content) + Dropped(recs[1..])
  }

  function Mismatched(recs: seq<Record>): nat {
    if recs == [] then 0 else MismatchedBy(recs[0].content) + Mismatched(recs[1..])
  }

  lemma {:induction false} SumsSnoc(recs: seq<Record>, r: Record, outcome: Audit.Outcome)
    ensures Audits(recs + [r], outcome)
            == Audits(recs, outcome) + if r.content.Audited? && r.content.outcome == outcome then 1 else 0
    ensures Dropped(recs + [r]) == Dropped(recs) + DroppedBy(r.content)
    ensures Mismatched(recs + [r]) == Mismatched(recs) + MismatchedBy(r.content)
  {
    if recs == [] {
      assert [] + [r] == [r] && [r][1..] == [];
    } else {
      SumsSnoc(recs[1..], r, outcome);
      assert (recs + [r])[1..] == recs[1..] + [r];
    }
  }

  /** Audits are counted by their outcome, and records dropped and markets found to differ are added up. */
  lemma {:induction false} FactsAddUp(f: Facts, recs: seq<Record>, outcome: Audit.Outcome)
    ensures Get(FactsAfter(f, recs).audits, outcome) == Get(f.audits, outcome) + Audits(recs, outcome)
    ensures FactsAfter(f, recs).dropped == f.dropped + Dropped(recs)
    ensures FactsAfter(f, recs).mismatched == f.mismatched + Mismatched(recs)
  {
    if recs != [] {
      var init, r := recs[..|recs| - 1], recs[|recs| - 1];
      assert recs == init + [r];
      FactsAddUp(f, init, outcome);
      SumsSnoc(init, r, outcome);
    }
  }
}
