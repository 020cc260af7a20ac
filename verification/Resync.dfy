/** The snapshots a connection asks for again, and the books it gives up meanwhile:
    `src/tape/recorder/supervisor.py` and `src/tape/recorder/gaps.py`. */
module Resync {
  import opened Prelude
  import opened OrderBook
  import opened Planner
  import opened Subscription
  import opened Feed
  import opened Exchange
  import Bus

  // ------------------------------------------------------------------ books that leave

  /** Of the markets that leave, books still wanted go stale and the others are dropped; no other book is touched. */
  lemma ReleasedMeans(books: Bus.Books, tickers: set<Ticker>, wanted: set<Ticker>, t: Ticker)
    ensures t !in tickers ==> (t in Released(books, tickers, wanted) <==> t in books)
                              && (t in books ==> Released(books, tickers, wanted)[t] == books[t])
    ensures t in tickers && t !in wanted ==> t !in Released(books, tickers, wanted)
    ensures t in tickers && t in wanted ==>
              (t in Released(books, tickers, wanted) <==> t in books)
              && (t in books ==> Released(books, tickers, wanted)[t] == BookState(books[t].levels, true))
  {
  }

  /** A group given up leaves no book that is not wanted, and no fresh one of its own. */
  lemma RemovedGroupLeavesNoBook(cfg: Config, c: Conn, id: Key, t: Ticker)
    requires c.applied.Some? && t in c.applied.value.tickers
    ensures var d := SentPiece(cfg, c, RemoveGroup(id));
            && !Bus.FreshIn(d.books, t)
            && (t in d.books ==> c.desired.Some? && t in c.desired.value.tickers)
            && forall s :: s in d.resyncing <==> s in c.resyncing && !(s in c.subs && c.subs[s].group == id)
  {
    ReleasedMeans(c.books, TickersOf(c.applied), TickersOf(c.desired), t);
  }

  /** The same for markets taken out of the group; the books of all others stay as they are. */
  lemma RemovedMarketsLeaveNoBook(cfg: Config, c: Conn, id: Key, ts: seq<Ticker>, t: Ticker)
    ensures var d := SentPiece(cfg, c, RemoveMarkets(id, ts));
            && (t in ts ==> !Bus.FreshIn(d.books, t) && (t in d.books ==> c.desired.Some?
                                                                           && t in c.desired.value.tickers))
            && (t !in ts ==> (t in d.books <==> t in c.books) && (t in c.books ==> d.books[t] == c.books[t]))
            && d.resyncing == c.resyncing
  {
    ReleasedMeans(c.books, Elems(ts), TickersOf(c.desired), t);
  }

  /** After `set_group` there are books of desired or applied markets only, and those are as the reconciliation left
      them. */
  lemma OnlyGroupBooksStay(cfg: Config, c: Conn, t: Ticker)
    requires cfg.Valid()
    ensures var d, r := OnSetGroup(cfg, c), Reconciled(cfg, c);
            && (t in d.books ==> t in r.books && (t in TickersOf(r.desired) || t in TickersOf(r.applied)))
            && (t in r.books && (t in TickersOf(r.desired) || t in TickersOf(r.applied)) ==> t in d.books)
            && (t in d.books ==> d.books[t] == r.books[t])
  {
  }

  // ------------------------------------------------------------------ what is awaited was asked for

  ghost predicate Awaits(c: Conn, sid: Key, t: Ticker) {
    sid in c.resyncing && t in c.resyncing[sid]
  }

  /** Asking for snapshots: the one command sent names, in order, exactly the markets not awaited yet, and there is
      none if there are none; then all of them are awaited besides what was. */
  lemma AskingMeans(c: Conn, sid: Key, tickers: set<Ticker>, s: Key, t: Ticker)
    ensures var d := SnapshotAsked(c, sid, tickers);
            && (Awaits(d, s, t) <==> Awaits(c, s, t) || (s == sid && t in tickers))
            && if forall u :: u in tickers ==> Awaits(c, sid, u) then d.sent == c.sent
               else |d.sent| == |c.sent| + 1 && c.sent <= d.sent
                    && var ask := d.sent[|c.sent|];
                       && ask.GetSnapshot? && ask.sid == sid && Ascending(ask.tickers)
                       && (t in ask.tickers <==> t in tickers && !Awaits(c, sid, t))
  {
    var wanted := tickers - Awaited(c.resyncing, sid);
    RequestMeans(sid, wanted, t);
    if forall u :: u in tickers ==> Awaits(c, sid, u) {
      assert wanted == {};
    } else {
      var u :| u in tickers && !Awaits(c, sid, u);
      assert u in wanted;
    }
  }

  lemma RequestMeans(sid: Key, wanted: set<Ticker>, t: Ticker)
    ensures wanted == {} ==> Request(sid, wanted) == []
    ensures wanted != {} ==>
              && |Request(sid, wanted)| == 1 && Request(sid, wanted)[0].GetSnapshot?
              && Request(sid, wanted)[0].sid == sid && Ascending(Request(sid, wanted)[0].tickers)
              && (t in Request(sid, wanted)[0].tickers <==> t in wanted)
  {
  }

  ghost predicate WasAsked(sent: seq<Command>, sid: Key, t: Ticker) {
    exists i :: 0 <= i < |sent| && Asks(sent[i], sid, t)
  }

  ghost predicate Asks(command: Command, sid: Key, t: Ticker) {
    command.GetSnapshot? && command.sid == sid && t in command.tickers
  }

  ghost predicate AllAsked(c: Conn) {
    forall sid, t :: Awaits(c, sid, t) ==> WasAsked(c.sent, sid, t)
  }

  lemma WasAskedGrows(a: seq<Command>, b: seq<Command>, sid: Key, t: Ticker)
    requires a <= b && WasAsked(a, sid, t)
    ensures WasAsked(b, sid, t)
  {
    var i :| 0 <= i < |a| && Asks(a[i], sid, t);
    assert Asks(b[i], sid, t);
  }

  lemma AskingKeepsAsked(c: Conn, sid: Key, tickers: set<Ticker>)
    requires AllAsked(c)
    ensures AllAsked(SnapshotAsked(c, sid, tickers))
  {
    var d := SnapshotAsked(c, sid, tickers);
    forall s, t | Awaits(d, s, t) ensures WasAsked(d.sent, s, t) {
      AskingMeans(c, sid, tickers, s, t);
      if Awaits(c, s, t) {
        WasAskedGrows(c.sent, d.sent, s, t);
      } else {
        assert Asks(d.sent[|c.sent|], s, t);
      }
    }
  }

  /** Nothing is awaited that was not, and nothing sent is forgotten. */
  ghost predicate AwaitsNoMore(c: Conn, d: Conn) {
    c.sent <= d.sent && forall sid, t :: Awaits(d, sid, t) ==> Awaits(c, sid, t)
  }

  lemma NoMoreKeepsAsked(c: Conn, d: Conn)
    requires AllAsked(c) && AwaitsNoMore(c, d)
    ensures AllAsked(d)
  {
    forall s, t | Awaits(d, s, t) ensures WasAsked(d.sent, s, t) {
      WasAskedGrows(c.sent, d.sent, s, t);
    }
  }

  lemma ResyncKeepsAsked(c: Conn, sid: Key, again: bool)
    requires AllAsked(c)
    ensures AllAsked(Resynced(c, sid, again))
  {
    if IsBookSid(c, sid) && c.applied.Some? {
      var d := c.(books := Staled(c.books, c.applied.value.tickers),
          resyncing := if again then c.resyncing - {sid} else c.resyncing);
      NoMoreKeepsAsked(c, d);
      AskingKeepsAsked(d, sid, c.applied.value.tickers);
    }
  }

  lemma TrackingKeepsAsked(c: Conn, f: Frame)
    requires AllAsked(c)
    ensures AllAsked(Tracked(c, f))
  {
    if f.sid.Some? {
      var d := c.(lastSeq := Advanced(Known(c, f), f.sid.value, f.seqNo));
      NoMoreKeepsAsked(c, d);
      ResyncKeepsAsked(d, f.sid.value, true);
      ResyncKeepsAsked(d, f.sid.value, false);
    }
  }

  lemma DataKeepsAsked(c: Conn, f: Frame)
    requires AllAsked(c)
    ensures AllAsked(DataApplied(c, f))
  {
    if f.sid.Some? {
      match f.body
      case Snapshot(t, bids, asks) =>
        SnapshotAwaitsNoMore(c, f.sid.value, t, bids, asks);
        NoMoreKeepsAsked(c, OnSnapshot(c, f.sid.value, t, bids, asks));
      case Delta(t, side, price, delta) => DeltaKeepsAsked(c, f.sid.value, t, side, price, delta);
      case Unsubscribed => NoMoreKeepsAsked(c, c.(lastSeq := c.lastSeq - {f.sid.value}));
      case _ =>
    }
  }

  lemma SnapshotAwaitsNoMore(c: Conn, sid: Key, t: Ticker, bids: seq<Level>, asks: seq<Level>)
    ensures AwaitsNoMore(c, OnSnapshot(c, sid, t, bids, asks))
  {
  }

  lemma DeltaKeepsAsked(c: Conn, sid: Key, t: Ticker, side: Side, price: Price, delta: int)
    requires AllAsked(c)
    ensures AllAsked(OnDelta(c, sid, t, side, price, delta))
  {
    if LiveOn(c, sid, t) && t in c.books {
      var d := c.(books := c.books[t := AfterDelta(c.books[t], side, price, delta)]);
      NoMoreKeepsAsked(c, d);
      AskingKeepsAsked(d, sid, {t});
    }
  }

  lemma PieceAwaitsNoMore(cfg: Config, c: Conn, piece: Change)
    ensures AwaitsNoMore(c, SentPiece(cfg, c, piece))
  {
    PieceAdvances(cfg, c, piece);
  }

  lemma NoMoreChains(b: Conn, c: Conn, d: Conn)
    requires AwaitsNoMore(b, c) && AwaitsNoMore(c, d)
    ensures AwaitsNoMore(b, d)
  {
  }

  lemma {:induction false} PiecesAwaitNoMore(cfg: Config, c: Conn, pieces: seq<Change>)
    ensures AwaitsNoMore(c, RunPieces(cfg, c, pieces))
    decreases |pieces|
  {
    if pieces != [] && !Blocked(c.pending, pieces[0]) {
      var d := SentPiece(cfg, c, pieces[0]);
      PieceAwaitsNoMore(cfg, c, pieces[0]);
      PiecesAwaitNoMore(cfg, d, pieces[1..]);
      NoMoreChains(c, d, RunPieces(cfg, d, pieces[1..]));
    }
  }

  lemma ReconcileAwaitsNoMore(cfg: Config, c: Conn)
    requires cfg.Valid()
    ensures AwaitsNoMore(c, Reconciled(cfg, c))
  {
    if c.pending == map[] { PiecesAwaitNoMore(cfg, AskedFirehose(cfg, c), Pieces(cfg, c)); }
  }

  lemma AdoptingKeepsAsked(c: Conn, group: Key, sid: Key, channel: Key, members: set<Ticker>)
    requires AllAsked(c)
    ensures AllAsked(Adopted(c, group, sid, channel, members))
  {
    var m := Merged(c, members);
    assert AwaitsNoMore(c, m);
    NoMoreKeepsAsked(c, m);
    AskingKeepsAsked(m, sid, Unfresh(m, members));
  }

  lemma OkayKeepsAllAsked(c: Conn, id: Key, sid: Key, members: set<Ticker>)
    requires AllAsked(c) && Answers(c, Some(id), Some(sid))
    ensures AllAsked(HearOk(c, Some(id), Some(sid), members).conn)
  {
    var d := Answered(c, id, sid, c.channelOf[sid]);
    NoMoreKeepsAsked(c, d);
    AdoptingKeepsAsked(d, c.pending[id].group, sid, c.channelOf[sid], members);
  }

  lemma SubscribedKeepsAllAsked(c: Conn, id: Option<Key>, sid: Key, channel: Key)
    requires AllAsked(c)
    ensures AllAsked(HearSubscribed(c, id, sid, channel).conn)
  {
    NoMoreKeepsAsked(c, HearSubscribed(c, id, sid, channel).conn);
  }

  lemma RefusedKeepsAllAsked(c: Conn, id: Option<Key>, sid: Option<Key>)
    requires AllAsked(c)
    ensures AllAsked(HearError(c, id, sid).conn)
  {
    NoMoreKeepsAsked(c, HearError(c, id, sid).conn);
  }

  lemma ReplyKeepsAllAsked(c: Conn, f: Frame)
    requires AllAsked(c) && IsReply(f.body)
    ensures AllAsked(HeardReply(c, f).conn)
  {
    match f.body
    case Subscribed(id, sid, channel) => SubscribedKeepsAllAsked(c, id, sid, channel);
    case Okay(id, members) =>
      if Answers(c, id, f.sid) { OkayKeepsAllAsked(c, id.value, f.sid.value, members); }
    case Refused(id) => RefusedKeepsAllAsked(c, id, f.sid);
  }

  lemma FrameKeepsAllAsked(cfg: Config, c: Conn, f: Frame)
    requires cfg.Valid() && AllAsked(c)
    ensures AllAsked(OnFrame(cfg, c, f))
  {
    var mid := Tracked(c, f);
    TrackingKeepsAsked(c, f);
    if IsReply(f.body) {
      ReplyKeepsAllAsked(mid, f);
      var h := HeardReply(mid, f);
      var d := h.conn.(deferred := false);
      NoMoreKeepsAsked(h.conn, d);
      ReconcileAwaitsNoMore(cfg, d);
      NoMoreKeepsAsked(d, Reconciled(cfg, d));
    } else {
      DataKeepsAsked(mid, f);
    }
  }

  /** On every run each market a connection awaits a snapshot of, on whatever sid, was asked for on that sid. */
  lemma {:induction false} AwaitedWasAsked(cfg: Config, desired: Option<Group>, books: Bus.Books, steps: seq<Step>)
    requires cfg.Valid()
    ensures AllAsked(Ran(cfg, desired, books, steps).conn)
  {
    if steps == [] {
      ReconcileAwaitsNoMore(cfg, Connecting(desired, books));
      NoMoreKeepsAsked(Connecting(desired, books), Opened(cfg, desired, books).conn);
    } else {
      var init, s := steps[..|steps| - 1], steps[|steps| - 1];
      AwaitedWasAsked(cfg, desired, books, init);
      var w := Ran(cfg, desired, books, init);
      if Possible(cfg, w, s) {
        match s
        case Want(group) => NoMoreKeepsAsked(w.conn, w.conn.(desired := group));
        case Regroup =>
          ReconcileAwaitsNoMore(cfg, w.conn);
          NoMoreKeepsAsked(w.conn, OnSetGroup(cfg, w.conn));
        case Arrive(f) => FrameKeepsAllAsked(cfg, w.conn, f);
      }
    }
  }

  // ------------------------------------------------------------------ what makes a connection ask

  /** A frame on a live sid of books whose number is not the next: every applied book is stale, and every applied
      market is awaited on the sid. When numbers were skipped all of them are asked for afresh, whatever was awaited;
      when one came again, only those not awaited yet. */
  lemma OutOfOrderAsks(c: Conn, f: Frame, t: Ticker)
    requires f.sid.Some? && IsBookSid(c, f.sid.value) && c.applied.Some? && t in c.applied.value.tickers
    requires Judged(Known(c, f), f.sid.value, f.seqNo) in {Skipped, Repeated}
    ensures var d := Tracked(c, f);
            && !Bus.FreshIn(d.books, t) && Awaits(d, f.sid.value, t)
            && (Judged(Known(c, f), f.sid.value, f.seqNo) == Skipped ==>
                  |d.sent| == |c.sent| + 1 && Asks(d.sent[|c.sent|], f.sid.value, t))
            && (Judged(Known(c, f), f.sid.value, f.seqNo) == Repeated && Awaits(c, f.sid.value, t) ==>
                  forall i :: |c.sent| <= i < |d.sent| ==> !Asks(d.sent[i], f.sid.value, t))
  {
    var sid := f.sid.value;
    var again := Judged(Known(c, f), sid, f.seqNo) == Skipped;
    var k := c.(lastSeq := Advanced(Known(c, f), sid, f.seqNo));
    var d := k.(books := Staled(c.books, c.applied.value.tickers),
        resyncing := if again then c.resyncing - {sid} else c.resyncing);
    assert Tracked(c, f) == SnapshotAsked(d, sid, c.applied.value.tickers);
    AskingMeans(d, sid, c.applied.value.tickers, sid, t);
    assert again ==> !Awaits(d, sid, t);
  }

  /** Every other frame asks for nothing by its number. */
  lemma InOrderAsksNothing(c: Conn, f: Frame)
    requires f.sid.None? || Judged(Known(c, f), f.sid.value, f.seqNo) in {InOrder, Baseline}
             || !IsBookSid(c, f.sid.value) || c.applied.None?
    ensures var d := Tracked(c, f); d.sent == c.sent && d.books == c.books && d.resyncing == c.resyncing
  {
  }

  /** A snapshot of a market ends the wait for it on its sid, and no other wait. */
  lemma SnapshotEndsWait(c: Conn, sid: Key, t: Ticker, bids: seq<Level>, asks: seq<Level>, s: Key, u: Ticker)
    ensures Awaits(OnSnapshot(c, sid, t, bids, asks), s, u) <==> Awaits(c, s, u) && !(s == sid && u == t)
  {
    if s == sid && Awaits(c, s, u) && u != t { assert u in c.resyncing[sid] - {t}; }
  }

  /** A delta that breaks its book leaves it stale and its snapshot awaited, asked for if it was not; one that does
      not asks for nothing. */
  lemma BrokenDeltaAsks(c: Conn, sid: Key, t: Ticker, side: Side, price: Price, delta: int)
    requires LiveOn(c, sid, t) && t in c.books
    ensures var d := OnDelta(c, sid, t, side, price, delta);
            if DeltaVerdict(c.books[t], side, price, delta) == Broken
            then !Bus.FreshIn(d.books, t) && Awaits(d, sid, t)
                 && (if Awaits(c, sid, t) then d.sent == c.sent
                     else |d.sent| == |c.sent| + 1 && Asks(d.sent[|c.sent|], sid, t))
            else d.sent == c.sent && d.resyncing == c.resyncing
  {
    var d := c.(books := c.books[t := AfterDelta(c.books[t], side, price, delta)]);
    AskingMeans(d, sid, {t}, sid, t);
  }

  /** A merge on the books' channel asks for the snapshot of every member that is wanted and has no fresh book, and
      for no other. */
  lemma MergeAsksForMissing(c: Conn, id: Key, sid: Key, members: set<Ticker>, s: Key, t: Ticker)
    requires Answers(c, Some(id), Some(sid)) && c.channelOf[sid] == ORDERBOOK && members != {}
    requires c.applied.Some? && c.applied.value.id == c.pending[id].group
    ensures Awaits(HearOk(c, Some(id), Some(sid), members).conn, s, t) <==>
              Awaits(c, s, t) || (s == sid && t in members && t in TickersOf(c.desired) && !Bus.FreshIn(c.books, t))
  {
    var m := Merged(Answered(c, id, sid, ORDERBOOK), members);
    assert m.resyncing == c.resyncing && m.books == c.books && m.desired == c.desired;
    AskingMeans(m, sid, Unfresh(m, members), s, t);
  }

  /** An error frame ends every wait on the sid it names, and none on any other. */
  lemma ErrorEndsWaits(c: Conn, id: Option<Key>, sid: Option<Key>, s: Key, t: Ticker)
    ensures Awaits(HearError(c, id, sid).conn, s, t) <==> Awaits(c, s, t) && sid != Some(s)
  {
  }

  /** Nothing is known of the numbering of a sid that was unsubscribed: its next numbered frame is taken as it is. */
  lemma UnsubscribedStartsAnew(cfg: Config, c: Conn, f: Frame, g: Frame, sid: Key, n: int)
    requires cfg.Valid() && f.sid == g.sid == Some(sid) && f.body.Unsubscribed? && g.seqNo == Some(n)
    ensures var d := OnFrame(cfg, c, f);
            && sid !in d.lastSeq && (forall s :: s != sid ==> (s in d.lastSeq <==> s in Tracked(c, f).lastSeq))
            && Judged(Known(d, g), sid, g.seqNo) == Baseline
            && Tracked(d, g).lastSeq == d.lastSeq[sid := n]
  {
    TrackedControl(OnFrame(cfg, c, f), g);
  }

  // ------------------------------------------------------------------ when plan changes are sent

  lemma ReplyAsksOnly(cfg: Config, c: Conn, f: Frame)
    requires cfg.Valid() && IsReply(f.body)
    ensures OnlyAsks(c, HeardReply(Tracked(c, f), f).conn)
  {
    TrackingIsQuiet(c, f);
    HeardAsks(Tracked(c, f), f);
    OnlyAsksChain(c, Tracked(c, f), HeardReply(Tracked(c, f), f).conn);
  }

  lemma DataAsksOnly(cfg: Config, c: Conn, f: Frame)
    requires cfg.Valid() && !IsReply(f.body)
    ensures OnlyAsks(c, OnFrame(cfg, c, f))
  {
    TrackingIsQuiet(c, f);
    DataIsQuiet(Tracked(c, f), f);
    OnlyAsksChain(c, Tracked(c, f), OnFrame(cfg, c, f));
  }

  /** A step sends nothing but requests for snapshots, unless the connection goes on to reconcile: then it first sent
      no more than that, nothing is pending, and the step ends as the reconciliation does. */
  lemma StepsSendWhenTheyReconcile(cfg: Config, w: Live, s: Step)
    requires cfg.Valid() && Possible(cfg, w, s)
    ensures var at, d := AboutToSend(cfg, w.conn, s), Stepped(cfg, w, s).conn;
            && (at.None? ==> OnlyAsks(w.conn, d))
            && (at.Some? ==> OnlyAsks(w.conn, at.value) && at.value.pending == map[]
                             && d.sent == Reconciled(cfg, at.value).sent)
  {
    match s
    case Want(_) => OnlyAsksSelf(w.conn);
    case Regroup => OnlyAsksSelf(w.conn);
    case Arrive(f) =>
      if IsReply(f.body) {
        ReplyAsksOnly(cfg, w.conn, f);
        DeferringAsksNothing(w.conn, HeardReply(Tracked(w.conn, f), f).conn);
      } else {
        DataAsksOnly(cfg, w.conn, f);
      }
  }

  lemma DeferringAsksNothing(c: Conn, d: Conn)
    requires OnlyAsks(c, d)
    ensures OnlyAsks(c, d.(deferred := false))
  {
    assert SentSince(c, d.(deferred := false)) == SentSince(c, d);
  }

  lemma OnlyAsksSelf(c: Conn)
    ensures OnlyAsks(c, c) && forall g :: OnlyAsks(c, c.(desired := g))
  {
  }
}
