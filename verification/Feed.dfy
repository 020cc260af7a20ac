/** The frames of one connection: sequence checking, resynchronisation, book updates and replies, over
    whole runs: `src/tape/recorder/supervisor.py` and `src/tape/recorder/gaps.py`. */
module Feed {
  import opened Prelude
  import opened OrderBook
  import Bus
  import opened Planner
  import opened Subscription

  // ------------------------------------------------------------------ sequence tracking

  datatype Verdict = InOrder | Baseline | Skipped | Repeated

  /** `GapTracker.observe`. */
  function Judged(lastSeq: map<Key, int>, sid: Key, seqNo: Option<int>): Verdict {
    if seqNo.None? then InOrder
    else if sid !in lastSeq then Baseline
    else if seqNo.value == lastSeq[sid] + 1 then InOrder
    else if seqNo.value > lastSeq[sid] + 1 then Skipped
    else Repeated
  }

  function Advanced(lastSeq: map<Key, int>, sid: Key, seqNo: Option<int>): map<Key, int> {
    if seqNo.None? || Judged(lastSeq, sid, seqNo) == Repeated then lastSeq else lastSeq[sid := seqNo.value]
  }

  // ------------------------------------------------------------------ frames

  datatype Body =
    | Snapshot(ticker: Ticker, bids: seq<Level>, asks: seq<Level>)
    | Delta(ticker: Ticker, side: Side, price: Price, delta: int)
    | Undecodable(snapshot: bool)              // a book message whose payload does not decode
    | Subscribed(id: Option<Key>, sid: Key, channel: Key)
    | Okay(id: Option<Key>, members: set<Ticker>)
    | Refused(id: Option<Key>)
    | Unsubscribed
    | Other                                    // trades, tickers, lifecycle messages, unknown types

  /** A frame whose envelope decoded. One whose envelope did not has no effect here. */
  datatype Frame = Frame(sid: Option<Key>, seqNo: Option<int>, body: Body)

  predicate IsBookMessage(b: Body) {
    b.Snapshot? || b.Delta? || b.Undecodable?
  }

  predicate LooksLikeSnapshot(b: Body) {
    b.Snapshot? || (b.Undecodable? && b.snapshot)
  }

  /** A resnapshot that is awaited becomes the new baseline of its sid. */
  function Known(c: Conn, f: Frame): map<Key, int>
    requires f.sid.Some?
  {
    if LooksLikeSnapshot(f.body) && f.sid.value in c.resyncing then c.lastSeq - {f.sid.value} else c.lastSeq
  }

  ghost function Staled(books: Bus.Books, tickers: set<Ticker>): Bus.Books {
    map t | t in books :: if t in tickers then books[t].(stale := true) else books[t]
  }

  predicate IsBookSid(c: Conn, sid: Key) {
    sid in c.subs && c.subs[sid].channel == ORDERBOOK
  }

  /** `_resync_connection`. */
  ghost function Resynced(c: Conn, sid: Key, again: bool): Conn {
    if !IsBookSid(c, sid) || c.applied.None? then c
    else
      var d := c.(books := Staled(c.books, c.applied.value.tickers),
          resyncing := if again then c.resyncing - {sid} else c.resyncing);
      SnapshotAsked(d, sid, c.applied.value.tickers)
  }

  /** `_on_frame` up to the dispatch. */
  ghost function Tracked(c: Conn, f: Frame): Conn {
    if f.sid.None? then c
    else
      var sid, known := f.sid.value, Known(c, f);
      var d := c.(lastSeq := Advanced(known, sid, f.seqNo));
      match Judged(known, sid, f.seqNo)
      case Skipped => Resynced(d, sid, true)
      case Repeated => Resynced(d, sid, false)
      case _ => d
  }

  /** `_book_for`: the message may touch the market's book. */
  predicate LiveOn(c: Conn, sid: Key, t: Ticker) {
    IsBookSid(c, sid) && t in TickersOf(c.applied)
  }

  /** `_finish_resync`. */
  ghost function Awaiting(resyncing: map<Key, set<Ticker>>, sid: Key, t: Ticker): map<Key, set<Ticker>> {
    if sid !in resyncing then resyncing
    else if resyncing[sid] - {t} == {} then resyncing - {sid}
    else resyncing[sid := resyncing[sid] - {t}]
  }

  ghost function OnSnapshot(c: Conn, sid: Key, t: Ticker, bids: seq<Level>, asks: seq<Level>): Conn {
    c.(resyncing := Awaiting(c.resyncing, sid, t),
        books := if LiveOn(c, sid, t) then Replaced(c.books, t, bids, asks) else c.books)
  }

  ghost function Replaced(books: Bus.Books, t: Ticker, bids: seq<Level>, asks: seq<Level>): Bus.Books {
    books[t := AfterSnapshot(Bus.BookOf(books, t), bids, asks)]
  }

  ghost function OnDelta(c: Conn, sid: Key, t: Ticker, side: Side, price: Price, delta: int): Conn {
    if !LiveOn(c, sid, t) || t !in c.books then c
    else
      var d := c.(books := c.books[t := AfterDelta(c.books[t], side, price, delta)]);
      if DeltaVerdict(c.books[t], side, price, delta) == Broken then SnapshotAsked(d, sid, {t}) else d
  }

  predicate IsReply(b: Body) {
    b.Subscribed? || b.Okay? || b.Refused?
  }

  ghost function HeardReply(c: Conn, f: Frame): Heard
    requires IsReply(f.body)
  {
    match f.body
    case Subscribed(id, sid, channel) => HearSubscribed(c, id, sid, channel)
    case Okay(id, members) => HearOk(c, id, f.sid, members)
    case Refused(id) => HearError(c, id, f.sid)
  }

  /** A book message without a sid does not decode. */
  ghost function DataApplied(c: Conn, f: Frame): Conn {
    match f.body
    case Snapshot(t, bids, asks) => if f.sid.None? then c else OnSnapshot(c, f.sid.value, t, bids, asks)
    case Delta(t, side, price, delta) => if f.sid.None? then c else OnDelta(c, f.sid.value, t, side, price, delta)
    case Unsubscribed => if f.sid.None? then c else c.(lastSeq := c.lastSeq - {f.sid.value})
    case _ => c
  }

  /** `_dispatch`. */
  ghost function Dispatched(cfg: Config, c: Conn, f: Frame): Conn
    requires cfg.Valid()
  {
    if IsReply(f.body) then After(cfg, HeardReply(c, f)) else DataApplied(c, f)
  }

  ghost function OnFrame(cfg: Config, c: Conn, f: Frame): Conn
    requires cfg.Valid()
  {
    Dispatched(cfg, Tracked(c, f), f)
  }

  // ------------------------------------------------------------------ what was received since a snapshot

  /** For each market, its last applied snapshot and every frame of its sid received since, while nothing
      that sequence numbers cannot show has happened on that sid. */
  type History = map<Ticker, seq<Frame>>

  ghost predicate OnSid(h: seq<Frame>, f: Frame) {
    h != [] && f.sid.Some? && h[0].sid == f.sid
  }

  /** The frame neither escapes the numbering nor restarts it elsewhere. */
  ghost predicate Accounted(c: Conn, h: seq<Frame>, f: Frame)
    requires h != [] && f.sid.Some?
  {
    if f.seqNo.None? then !IsBookMessage(f.body)
    else
      && !f.body.Undecodable?
      && (Judged(Known(c, f), f.sid.value, f.seqNo) == Baseline ==>
            h[|h| - 1].seqNo.Some? && f.seqNo.value == h[|h| - 1].seqNo.value + 1)
  }

  ghost predicate Lost(c: Conn, h: seq<Frame>, f: Frame) {
    h == [] || (OnSid(h, f) && !Accounted(c, h, f))
  }

  ghost function Heard1(h: seq<Frame>, f: Frame): seq<Frame> {
    if OnSid(h, f) && f.seqNo.Some? then h + [f] else h
  }

  ghost function Kept1(c: Conn, hist: History, f: Frame): History {
    map t | t in hist && !Lost(c, hist[t], f) :: Heard1(hist[t], f)
  }

  /** The frame's number is where the baseline then stands: not a number before it come again. */
  predicate AtBaseline(c: Conn, f: Frame)
    requires f.sid.Some?
  {
    f.seqNo.Some? && (f.sid.value in Known(c, f) ==> f.seqNo.value >= Known(c, f)[f.sid.value])
  }

  /** The frame is a snapshot that its market's book takes. */
  ghost predicate Takes(c: Conn, f: Frame) {
    f.body.Snapshot? && f.sid.Some? && LiveOn(c, f.sid.value, f.body.ticker) && ValidSnapshot(f.body.bids, f.body.asks)
  }

  ghost function Followed(cfg: Config, c: Conn, hist: History, f: Frame): History
    requires cfg.Valid()
  {
    var kept := Kept1(c, hist, f);
    if Takes(c, f) then (if AtBaseline(c, f) then kept[f.body.ticker := [f]] else kept - {f.body.ticker})
    else if f.body.Okay?
        then map t | t in kept
        && t in TickersOf(HearOk(Tracked(c, f), f.body.id, f.sid, f.body.members).conn.applied) :: kept[t]
    else kept
  }

  // ------------------------------------------------------------------ what the history says

  /** The frames are numbered one after the other on one sid, from a snapshot of the market. */
  ghost predicate Contiguous(t: Ticker, h: seq<Frame>) {
    && h != [] && h[0].sid.Some? && h[0].seqNo.Some?
    && h[0].body.Snapshot? && h[0].body.ticker == t && ValidSnapshot(h[0].body.bids, h[0].body.asks)
    && (forall i :: 0 <= i < |h| ==> h[i].sid == h[0].sid && h[i].seqNo == Some(h[0].seqNo.value + i))
  }

  /** The snapshot, and then exactly the market's own deltas. */
  ghost function Folded(t: Ticker, h: seq<Frame>): BookState
    requires h != []
  {
    if |h| == 1 then (if h[0].body.Snapshot? then AfterSnapshot(EMPTY_BOOK, h[0].body.bids, h[0].body.asks) else
        EMPTY_BOOK)
    else
      var b, f := Folded(t, h[..|h| - 1]), h[|h| - 1].body;
      if f.Delta? && f.ticker == t then AfterDelta(b, f.side, f.price, f.delta) else b
  }

  ghost predicate Follows(c: Conn, t: Ticker, h: seq<Frame>) {
    && Contiguous(t, h) && LiveOn(c, h[0].sid.value, t)
    && (h[0].sid.value in c.lastSeq ==> c.lastSeq[h[0].sid.value] == h[0].seqNo.value + |h| - 1)
    && t in c.books && c.books[t] == Folded(t, h)
  }

  ghost predicate InSync(c: Conn, hist: History) {
    forall t :: t in hist && Bus.FreshIn(c.books, t) ==> Follows(c, t, hist[t])
  }

  /** At most one live sid carries books, and none is awaited beside it. */
  ghost predicate OneBookSid(subs: map<Key, Info>, pending: map<Key, Pending>) {
    forall s :: s in subs && subs[s].channel == ORDERBOOK ==>
      && (forall r :: r in subs && subs[r].channel == ORDERBOOK ==> r == s)
      && (forall k :: k in pending ==> ORDERBOOK !in pending[k].channels)
  }

  // ------------------------------------------------------------------ one frame

  lemma ResyncedFacts(c: Conn, sid: Key, again: bool)
    ensures var d := Resynced(c, sid, again);
            && SameControl(c, d) && d.lastSeq == c.lastSeq
            && d.books ==
                 (if IsBookSid(c, sid) && c.applied.Some? then Staled(c.books, c.applied.value.tickers) else c.books)
  {
    if IsBookSid(c, sid) && c.applied.Some? {
      var d := c.(books := Staled(c.books, c.applied.value.tickers),
          resyncing := if again then c.resyncing - {sid} else c.resyncing);
      SnapshotAskedKeeps(d, sid, c.applied.value.tickers);
    }
  }

  lemma StaledFacts(books: Bus.Books, tickers: set<Ticker>, t: Ticker)
    ensures Bus.FreshIn(Staled(books, tickers), t) ==>
            Bus.FreshIn(books, t) && Staled(books, tickers)[t] == books[t] && t !in tickers
  {
  }

  lemma TrackedControl(c: Conn, f: Frame)
    ensures var d := Tracked(c, f);
            && SameControl(c, d)
            && (if f.sid.None? then d.lastSeq == c.lastSeq else
                d.lastSeq == Advanced(Known(c, f), f.sid.value, f.seqNo))
  {
    if f.sid.Some? {
      var d := c.(lastSeq := Advanced(Known(c, f), f.sid.value, f.seqNo));
      ResyncedFacts(d, f.sid.value, true);
      ResyncedFacts(d, f.sid.value, false);
    }
  }

  /** Checking a frame's number can only make books stale, and does so when the number is not the next. */
  lemma TrackedFacts(c: Conn, f: Frame, t: Ticker)
    ensures var d := Tracked(c, f);
            && (Bus.FreshIn(d.books, t) ==> Bus.FreshIn(c.books, t) && d.books[t] == c.books[t])
            && (f.sid.Some? && LiveOn(c, f.sid.value, t) && Bus.FreshIn(d.books, t) ==>
                  Judged(Known(c, f), f.sid.value, f.seqNo) in {InOrder, Baseline})
  {
    if f.sid.Some? {
      var d := c.(lastSeq := Advanced(Known(c, f), f.sid.value, f.seqNo));
      ResyncedFacts(d, f.sid.value, true);
      ResyncedFacts(d, f.sid.value, false);
      StaledFacts(c.books, TickersOf(c.applied), t);
    }
  }

  lemma FoldedSnoc(t: Ticker, h: seq<Frame>, f: Frame)
    requires h != []
    ensures Folded(t, h + [f]) ==
            if f.body.Delta? && f.body.ticker == t
                then AfterDelta(Folded(t, h), f.body.side, f.body.price, f.body.delta) else Folded(t, h)
  {
    assert (h + [f])[..|h + [f]| - 1] == h;
  }

  /** A frame in order lengthens the run; any other one is on another sid or carries no number. */
  lemma RunGoesOn(c: Conn, t: Ticker, h: seq<Frame>, f: Frame)
    requires Follows(c, t, h) && f.sid.Some? && OnSid(h, f) && f.seqNo.Some? && Accounted(c, h, f)
    requires Judged(Known(c, f), f.sid.value, f.seqNo) in {InOrder, Baseline}
    ensures Contiguous(t, h + [f]) && f.seqNo == Some(h[0].seqNo.value + |h|)
    ensures Advanced(Known(c, f), f.sid.value, f.seqNo)[f.sid.value] == h[0].seqNo.value + |h|
  {
    assert h[|h| - 1].seqNo == Some(h[0].seqNo.value + (|h| - 1));
    assert f.seqNo == Some(h[0].seqNo.value + |h|);
    var g := h + [f];
    forall i | 0 <= i < |g| ensures g[i].sid == g[0].sid && g[i].seqNo == Some(g[0].seqNo.value + i) {
      if i < |h| { assert g[i] == h[i]; }
    }
  }

  /** Between the check and the dispatch: the run is brought up to date, the book is not yet. */
  ghost predicate Caught(c: Conn, t: Ticker, h: seq<Frame>, g: seq<Frame>) {
    && Contiguous(t, h) && Contiguous(t, g) && g[0] == h[0] && LiveOn(c, h[0].sid.value, t)
    && (h[0].sid.value in c.lastSeq ==> c.lastSeq[h[0].sid.value] == h[0].seqNo.value + |g| - 1)
    && t in c.books && c.books[t] == Folded(t, h)
  }

  lemma FrameCaught(c: Conn, hist: History, f: Frame, t: Ticker)
    requires InSync(c, hist) && t in Kept1(c, hist, f) && Bus.FreshIn(Tracked(c, f).books, t)
    ensures Caught(Tracked(c, f), t, hist[t], Heard1(hist[t], f))
  {
    var h := hist[t];
    TrackedControl(c, f);
    TrackedFacts(c, f, t);
    assert Follows(c, t, h);
    if OnSid(h, f) {
      if f.seqNo.Some? { RunGoesOn(c, t, h, f); }
    }
  }

  lemma CaughtUp(c: Conn, d: Conn, t: Ticker, h: seq<Frame>, f: Frame)
    requires Caught(c, t, h, Heard1(h, f)) && d.applied == c.applied && d.subs == c.subs
    requires d.lastSeq == c.lastSeq || (f.sid.Some? && d.lastSeq == c.lastSeq - {f.sid.value})
    requires t in d.books
    requires d.books[t] == (if OnSid(h, f) && f.body.Delta? && f.body.ticker == t
                            then AfterDelta(c.books[t], f.body.side, f.body.price, f.body.delta) else c.books[t])
    requires OnSid(h, f) && f.body.Delta? && f.body.ticker == t ==> f.seqNo.Some?
    ensures Follows(d, t, Heard1(h, f))
  {
    FoldedSnoc(t, h, f);
  }

  lemma SnapshotTaken(c: Conn, f: Frame)
    requires Takes(c, f) && AtBaseline(c, f)
    ensures var t := f.body.ticker;
            Follows(OnSnapshot(Tracked(c, f), f.sid.value, t, f.body.bids, f.body.asks), t, [f])
  {
    TrackedControl(c, f);
  }

  lemma AskedData(c: Conn, sid: Key, tickers: set<Ticker>)
    ensures SnapshotAsked(c, sid, tickers).books == c.books && SnapshotAsked(c, sid, tickers).lastSeq == c.lastSeq
  {
  }

  /** A delta moves its own market's book, on a live book sid, and nothing else. */
  lemma DeltaBeside(c: Conn, sid: Key, at: Ticker, side: Side, price: Price, delta: int, t: Ticker)
    requires Bus.FreshIn(OnDelta(c, sid, at, side, price, delta).books, t)
    ensures var d := OnDelta(c, sid, at, side, price, delta);
            && d.applied == c.applied && d.subs == c.subs && d.lastSeq == c.lastSeq && Bus.FreshIn(c.books, t)
            && d.books[t] ==
                 (if at == t && LiveOn(c, sid, t) then AfterDelta(c.books[t], side, price, delta) else c.books[t])
  {
    if LiveOn(c, sid, at) && at in c.books {
      var d := c.(books := c.books[at := AfterDelta(c.books[at], side, price, delta)]);
      SnapshotAskedKeeps(d, sid, {at});
      AskedData(d, sid, {at});
    }
  }

  lemma PutBeside(books: Bus.Books, at: Ticker, b: BookState, t: Ticker)
    requires Bus.FreshIn(books[at := b], t) && (at == t ==> b.stale)
    ensures Bus.FreshIn(books, t) && books[at := b][t] == books[t]
  {
  }

  lemma SnapshotBeside(c: Conn, sid: Key, at: Ticker, bids: seq<Level>, asks: seq<Level>, t: Ticker)
    requires Bus.FreshIn(OnSnapshot(c, sid, at, bids, asks).books, t)
    requires !(at == t && LiveOn(c, sid, t) && ValidSnapshot(bids, asks))
    ensures var d := OnSnapshot(c, sid, at, bids, asks);
            && d.applied == c.applied && d.subs == c.subs && d.lastSeq == c.lastSeq
            && Bus.FreshIn(c.books, t) && d.books[t] == c.books[t]
  {
    if LiveOn(c, sid, at) { PutBeside(c.books, at, AfterSnapshot(Bus.BookOf(c.books, at), bids, asks), t); }
  }

  /** What a message of another market, or one no book takes, leaves alone. */
  lemma BookBeside(cfg: Config, c: Conn, f: Frame, t: Ticker)
    requires cfg.Valid() && !IsReply(f.body) && Bus.FreshIn(Dispatched(cfg, c, f).books, t)
    requires !(f.body.Snapshot? && f.sid.Some? && f.body.ticker == t && LiveOn(c, f.sid.value, t)
             && ValidSnapshot(f.body.bids, f.body.asks))
    ensures var d := Dispatched(cfg, c, f);
            && d.applied == c.applied && d.subs == c.subs
            && (d.lastSeq == c.lastSeq || (f.sid.Some? && d.lastSeq == c.lastSeq - {f.sid.value}))
            && Bus.FreshIn(c.books, t)
            && d.books[t] == (if f.body.Delta? && f.body.ticker == t && f.sid.Some? && LiveOn(c, f.sid.value, t)
                              then AfterDelta(c.books[t], f.body.side, f.body.price, f.body.delta) else c.books[t])
  {
    match f.body
    case Snapshot(at, bids, asks) =>
      if f.sid.Some? { SnapshotBeside(c, f.sid.value, at, bids, asks, t); }
    case Delta(at, side, price, delta) =>
      if f.sid.Some? { DeltaBeside(c, f.sid.value, at, side, price, delta, t); }
    case _ =>
  }

  lemma OneSid(c: Conn, t: Ticker, h: seq<Frame>, f: Frame)
    requires OneBookSid(c.subs, c.pending) && h != [] && h[0].sid.Some? && LiveOn(c, h[0].sid.value, t)
    ensures OnSid(h, f) <==> f.sid.Some? && LiveOn(c, f.sid.value, t)
  {
  }

  lemma DataFrameAt(cfg: Config, c: Conn, hist: History, f: Frame, t: Ticker)
    requires cfg.Valid() && InSync(c, hist) && OneBookSid(c.subs, c.pending) && !IsReply(f.body)
    requires t in Followed(cfg, c, hist, f) && Bus.FreshIn(OnFrame(cfg, c, f).books, t)
    ensures Follows(OnFrame(cfg, c, f), t, Followed(cfg, c, hist, f)[t])
  {
    var mid := Tracked(c, f);
    TrackedControl(c, f);
    if Takes(c, f) && f.body.ticker == t {
      SnapshotTaken(c, f);
    } else {
      BookBeside(cfg, mid, f, t);
      assert t in Kept1(c, hist, f) && Followed(cfg, c, hist, f)[t] == Heard1(hist[t], f);
      FrameCaught(c, hist, f, t);
      OneSid(mid, t, hist[t], f);
      CaughtUp(mid, OnFrame(cfg, c, f), t, hist[t], f);
    }
  }

  // ------------------------------------------------------------------ replies

  /** Nothing but staleness can part a book from its frames. */
  ghost predicate Retains(c: Conn, d: Conn, t: Ticker) {
    Bus.FreshIn(d.books, t) ==>
      && Bus.FreshIn(c.books, t) && d.books[t] == c.books[t] && d.lastSeq == c.lastSeq
      && (forall s :: LiveOn(c, s, t) ==> LiveOn(d, s, t))
  }

  lemma RetainsChain(c: Conn, d: Conn, e: Conn, t: Ticker)
    requires Retains(c, d, t) && Retains(d, e, t)
    ensures Retains(c, e, t)
  {
  }

  lemma SentPieceRetains(cfg: Config, c: Conn, piece: Change, t: Ticker)
    requires Steady(cfg, c) && Fits(cfg, c.applied, piece)
    ensures Retains(c, SentPiece(cfg, c, piece), t)
  {
  }

  lemma {:induction false} RunRetains(cfg: Config, c: Conn, pieces: seq<Change>, t: Ticker)
    requires Steady(cfg, c) && OnTrack(cfg, c.applied, pieces)
    requires pieces != [] && IsRemoval(pieces[0]) ==> GroupIdle(c)
    ensures Retains(c, RunPieces(cfg, c, pieces), t)
    decreases |pieces|
  {
    if pieces == [] {
    } else if Blocked(c.pending, pieces[0]) {
    } else {
      PieceStep(cfg, c, pieces);
      SentPieceRetains(cfg, c, pieces[0], t);
      RunRetains(cfg, SentPiece(cfg, c, pieces[0]), pieces[1..], t);
      RetainsChain(c, SentPiece(cfg, c, pieces[0]), RunPieces(cfg, c, pieces), t);
    }
  }

  lemma AskedRetains(cfg: Config, c: Conn, t: Ticker)
    ensures Retains(c, AskedFirehose(cfg, c), t)
  {
  }

  lemma AllPiecesRetain(cfg: Config, c: Conn, t: Ticker)
    requires Steady(cfg, c) && c.pending == map[]
    ensures Retains(AskedFirehose(cfg, c), Reconciled(cfg, c), t)
  {
    PiecesLeadToDesired(cfg, c.applied, c.desired);
    AskedIsSteady(cfg, c);
    RunRetains(cfg, AskedFirehose(cfg, c), Pieces(cfg, c), t);
  }

  lemma ReconcileRetains(cfg: Config, c: Conn, t: Ticker)
    requires Steady(cfg, c)
    ensures Retains(c, Reconciled(cfg, c), t)
  {
    if c.pending == map[] {
      AllPiecesRetain(cfg, c, t);
      AskedRetains(cfg, c, t);
      RetainsChain(c, AskedFirehose(cfg, c), Reconciled(cfg, c), t);
    }
  }

  lemma AfterRetains(cfg: Config, h: Heard, t: Ticker)
    requires Steady(cfg, h.conn)
    ensures Retains(h.conn, After(cfg, h), t)
  {
    if h.resumes && h.conn.deferred && h.conn.pending == map[] {
      var d := h.conn.(deferred := false);
      DeferredIsSteady(cfg, h.conn);
      ReconcileRetains(cfg, d, t);
      RetainsChain(h.conn, d, Reconciled(cfg, d), t);
    }
  }

  /** The books' channel is the groups', never the firehose's. */
  predicate BooksByGroup(cfg: Config) {
    ORDERBOOK !in cfg.firehoseChannels
  }

  lemma GroupOfBookSid(cfg: Config, c: Conn, group: Key)
    requires Steady(cfg, c) && BooksByGroup(cfg) && IdOf(c.applied) == Some(group)
    ensures forall s :: IsBookSid(c, s) ==> s in SidsOf(c.subs, group)
  {
    forall s | IsBookSid(c, s) ensures s in SidsOf(c.subs, group) {
      assert c.subs[s].channel in ChannelsOf(cfg, c.subs[s].group);
    }
  }

  /** What the exchange promises of a frame. */
  ghost predicate HonestFrame(c: Conn, f: Frame) {
    f.body.Subscribed? ==>
      && (f.body.id.Some? ==> Honest(c, f.body.id.value, f.body.sid, f.body.channel))
      && (f.body.sid in c.channelOf ==> c.channelOf[f.body.sid] == f.body.channel)
  }

  lemma BindingRetains(cfg: Config, c: Conn, d: Conn, sid: Key, info: Info, t: Ticker)
    requires Steady(cfg, c) && (sid in c.channelOf ==> c.channelOf[sid] == info.channel)
    requires d.books == c.books && d.lastSeq == c.lastSeq && d.applied == c.applied && d.subs == c.subs[sid := info]
    ensures Retains(c, d, t)
  {
  }

  lemma HearOkRetains(cfg: Config, c: Conn, id: Option<Key>, sid: Option<Key>, members: set<Ticker>, t: Ticker)
    requires Steady(cfg, c) && t in TickersOf(HearOk(c, id, sid, members).conn.applied)
    ensures Retains(c, HearOk(c, id, sid, members).conn, t)
  {
    if HearOk(c, id, sid, members).resumes {
      var channel, group := c.channelOf[sid.value], c.pending[id.value].group;
      var d := Answered(c, id.value, sid.value, channel);
      BindingRetains(cfg, c, d, sid.value, Info(channel, group), t);
      AdoptedRetains(d, group, sid.value, channel, members, t);
      RetainsChain(c, d, HearOk(c, id, sid, members).conn, t);
    }
  }

  lemma AdoptedRetains(c: Conn, group: Key, sid: Key, channel: Key, members: set<Ticker>, t: Ticker)
    requires t in TickersOf(Adopted(c, group, sid, channel, members).applied)
    ensures Retains(c, Adopted(c, group, sid, channel, members), t)
  {
    var m := Merged(c, members);
    AskingRetains(m, sid, Unfresh(c, members), t);
    if Adopted(c, group, sid, channel, members) != c {
      MergingRetains(c, members, t);
      RetainsChain(c, m, Adopted(c, group, sid, channel, members), t);
    }
  }

  lemma MergingRetains(c: Conn, members: set<Ticker>, t: Ticker)
    requires t in TickersOf(Merged(c, members).applied)
    ensures Retains(c, Merged(c, members), t)
  {
  }

  lemma AskingRetains(c: Conn, sid: Key, tickers: set<Ticker>, t: Ticker)
    ensures Retains(c, SnapshotAsked(c, sid, tickers), t) && SnapshotAsked(c, sid, tickers).applied == c.applied
  {
    SnapshotAskedKeeps(c, sid, tickers);
    AskedData(c, sid, tickers);
  }

  /** A connection whose applied group has no sid has no live book. */
  lemma NoneLive(cfg: Config, c: Conn, group: Key, t: Ticker)
    requires Steady(cfg, c) && BooksByGroup(cfg) && IdOf(c.applied) == Some(group) && SidsOf(c.subs, group) == {}
    ensures forall s :: !LiveOn(c, s, t)
  {
    GroupOfBookSid(cfg, c, group);
  }

  lemma DeniedRetains(cfg: Config, c: Conn, id: Key, t: Ticker)
    requires Steady(cfg, c) && BooksByGroup(cfg) && id in c.pending
    ensures Retains(c, Denied(c, id), t)
  {
    if c.pending[id].group != FIREHOSE && SidsOf(c.subs, c.pending[id].group) == {} {
      NoneLive(cfg, c, c.pending[id].group, t);
    }
  }

  lemma HearErrorRetains(cfg: Config, c: Conn, id: Option<Key>, sid: Option<Key>, t: Ticker)
    requires Steady(cfg, c) && BooksByGroup(cfg)
    ensures Retains(c, HearError(c, id, sid).conn, t)
  {
    var d := c.(resyncing := WithoutSid(c.resyncing, sid));
    SameControlKeeps(cfg, c, d);
    if id.Some? && id.value in c.pending {
      DeniedRetains(cfg, d, id.value, t);
      RetainsChain(c, d, Denied(d, id.value), t);
    }
  }

  lemma HearSubscribedRetains(cfg: Config, c: Conn, id: Option<Key>, sid: Key, channel: Key, t: Ticker)
    requires Steady(cfg, c) && (sid in c.channelOf ==> c.channelOf[sid] == channel)
    ensures Retains(c, HearSubscribed(c, id, sid, channel).conn, t)
  {
    var d := HearSubscribed(c, id, sid, channel).conn;
    if id.Some? && id.value in c.pending {
      BindingRetains(cfg, c, d, sid, Info(channel, c.pending[id.value].group), t);
    }
  }

  lemma HeardRetains(cfg: Config, c: Conn, f: Frame, t: Ticker)
    requires Steady(cfg, c) && BooksByGroup(cfg) && IsReply(f.body) && HonestFrame(c, f)
    requires f.body.Okay? ==> t in TickersOf(HeardReply(c, f).conn.applied)
    ensures Retains(c, HeardReply(c, f).conn, t)
  {
    match f.body
    case Subscribed(id, sid, channel) => HearSubscribedRetains(cfg, c, id, sid, channel, t);
    case Okay(id, members) => HearOkRetains(cfg, c, id, f.sid, members, t);
    case Refused(id) => HearErrorRetains(cfg, c, id, f.sid, t);
  }

  lemma HeardKeeps(cfg: Config, c: Conn, f: Frame)
    requires Steady(cfg, c) && IsReply(f.body) && HonestFrame(c, f)
    ensures Steady(cfg, HeardReply(c, f).conn)
  {
    match f.body
    case Subscribed(id, sid, channel) => HearSubscribedKeeps(cfg, c, id, sid, channel);
    case Okay(id, members) => HearOkKeeps(cfg, c, id, f.sid, members);
    case Refused(id) => HearErrorKeeps(cfg, c, id, f.sid);
  }

  lemma RetainsFollows(c: Conn, d: Conn, t: Ticker, h: seq<Frame>)
    requires Retains(c, d, t) && Bus.FreshIn(d.books, t) && Follows(c, t, h)
    ensures Follows(d, t, h)
  {
  }

  lemma ReplyCaught(c: Conn, t: Ticker, h: seq<Frame>, f: Frame)
    requires Caught(c, t, h, Heard1(h, f)) && !f.body.Delta?
    ensures Follows(c, t, Heard1(h, f))
  {
    FoldedSnoc(t, h, f);
  }

  lemma ReplyRetains(cfg: Config, c: Conn, f: Frame, t: Ticker)
    requires Steady(cfg, c) && BooksByGroup(cfg) && IsReply(f.body) && HonestFrame(c, f)
    requires f.body.Okay? ==> t in TickersOf(HeardReply(c, f).conn.applied)
    ensures Retains(c, Dispatched(cfg, c, f), t)
  {
    var heard := HeardReply(c, f);
    HeardRetains(cfg, c, f, t);
    HeardKeeps(cfg, c, f);
    AfterRetains(cfg, heard, t);
    RetainsChain(c, heard.conn, After(cfg, heard), t);
  }

  lemma ReplyFollowed(cfg: Config, c: Conn, hist: History, f: Frame, t: Ticker)
    requires cfg.Valid() && IsReply(f.body) && t in Followed(cfg, c, hist, f)
    ensures t in Kept1(c, hist, f) && Followed(cfg, c, hist, f)[t] == Kept1(c, hist, f)[t]
    ensures f.body.Okay? ==> t in TickersOf(HeardReply(Tracked(c, f), f).conn.applied)
  {
  }

  lemma ReplyFrameAt(cfg: Config, c: Conn, hist: History, f: Frame, t: Ticker)
    requires Steady(cfg, c) && BooksByGroup(cfg) && InSync(c, hist) && IsReply(f.body) && HonestFrame(c, f)
    requires t in Followed(cfg, c, hist, f) && Bus.FreshIn(OnFrame(cfg, c, f).books, t)
    ensures Follows(OnFrame(cfg, c, f), t, Followed(cfg, c, hist, f)[t])
  {
    var mid := Tracked(c, f);
    TrackedControl(c, f);
    SameControlKeeps(cfg, c, mid);
    ReplyFollowed(cfg, c, hist, f, t);
    ReplyRetains(cfg, mid, f, t);
    FrameCaught(c, hist, f, t);
    ReplyCaught(mid, t, hist[t], f);
    RetainsFollows(mid, OnFrame(cfg, c, f), t, Heard1(hist[t], f));
  }

  /** One frame keeps every fresh book equal to its frames. */
  lemma FrameKeepsSync(cfg: Config, c: Conn, hist: History, f: Frame)
    requires Steady(cfg, c) && BooksByGroup(cfg) && OneBookSid(c.subs, c.pending) && InSync(c, hist)
             && HonestFrame(c, f)
    ensures InSync(OnFrame(cfg, c, f), Followed(cfg, c, hist, f))
  {
    forall t | t in Followed(cfg, c, hist, f) && Bus.FreshIn(OnFrame(cfg, c, f).books, t)
      ensures Follows(OnFrame(cfg, c, f), t, Followed(cfg, c, hist, f)[t])
    {
      if IsReply(f.body) { ReplyFrameAt(cfg, c, hist, f, t); } else { DataFrameAt(cfg, c, hist, f, t); }
    }
  }

  // ------------------------------------------------------------------ one live book sid

  lemma SentPieceKeepsOneSid(cfg: Config, c: Conn, piece: Change)
    requires Steady(cfg, c) && BooksByGroup(cfg) && Fits(cfg, c.applied, piece) && OneBookSid(c.subs, c.pending)
    ensures OneBookSid(SentPiece(cfg, c, piece).subs, SentPiece(cfg, c, piece).pending)
  {
    if piece.AddGroup? {
      forall s | s in c.subs ensures c.subs[s].channel != ORDERBOOK {
        assert c.subs[s].group == FIREHOSE && c.subs[s].channel in ChannelsOf(cfg, FIREHOSE);
      }
    }
  }

  lemma {:induction false} RunKeepsOneSid(cfg: Config, c: Conn, pieces: seq<Change>)
    requires Steady(cfg, c) && BooksByGroup(cfg) && OnTrack(cfg, c.applied, pieces) && OneBookSid(c.subs, c.pending)
    requires pieces != [] && IsRemoval(pieces[0]) ==> GroupIdle(c)
    ensures OneBookSid(RunPieces(cfg, c, pieces).subs, RunPieces(cfg, c, pieces).pending)
    decreases |pieces|
  {
    if pieces == [] {
    } else if Blocked(c.pending, pieces[0]) {
    } else {
      PieceStep(cfg, c, pieces);
      SentPieceKeepsOneSid(cfg, c, pieces[0]);
      RunKeepsOneSid(cfg, SentPiece(cfg, c, pieces[0]), pieces[1..]);
    }
  }

  lemma AskedKeepsOneSid(cfg: Config, c: Conn)
    requires BooksByGroup(cfg) && OneBookSid(c.subs, c.pending)
    ensures OneBookSid(AskedFirehose(cfg, c).subs, AskedFirehose(cfg, c).pending)
  {
  }

  lemma ReconcileKeepsOneSid(cfg: Config, c: Conn)
    requires Steady(cfg, c) && BooksByGroup(cfg) && OneBookSid(c.subs, c.pending)
    ensures OneBookSid(Reconciled(cfg, c).subs, Reconciled(cfg, c).pending)
  {
    if c.pending == map[] {
      PiecesLeadToDesired(cfg, c.applied, c.desired);
      AskedIsSteady(cfg, c);
      AskedKeepsOneSid(cfg, c);
      RunKeepsOneSid(cfg, AskedFirehose(cfg, c), Pieces(cfg, c));
    }
  }

  lemma AfterKeepsOneSid(cfg: Config, h: Heard)
    requires Steady(cfg, h.conn) && BooksByGroup(cfg) && OneBookSid(h.conn.subs, h.conn.pending)
    ensures OneBookSid(After(cfg, h).subs, After(cfg, h).pending)
  {
    if h.resumes && h.conn.deferred && h.conn.pending == map[] {
      DeferredIsSteady(cfg, h.conn);
      ReconcileKeepsOneSid(cfg, h.conn.(deferred := false));
    }
  }

  /** A sid that answers a subscribe takes the channel out of what that subscribe awaits. */
  lemma AnswerKeepsOneSid(
      cfg: Config, applied: Option<Key>, subs: map<Key, Info>, pending: map<Key, Pending>, id: Key, sid: Key,
      channel: Key)
    requires WellPended(cfg, applied, pending) && BooksByGroup(cfg) && OneBookSid(subs, pending)
    requires id in pending && channel in pending[id].channels
    ensures OneBookSid(subs[sid := Info(channel, pending[id].group)], StillPending(pending, id, channel))
  {
    var left := StillPending(pending, id, channel);
    if channel == ORDERBOOK {
      forall k | k in left ensures ORDERBOOK !in left[k].channels {
        if k != id {
          assert pending[k].channels <= ChannelsOf(cfg, pending[k].group)
                 && pending[id].channels <= ChannelsOf(cfg, pending[id].group);
        }
      }
      assert forall r :: r in subs ==> subs[r].channel != ORDERBOOK;
    } else {
      assert forall k :: k in left ==> k in pending && left[k].channels <= pending[k].channels;
    }
  }

  lemma AdoptedKeepsSubs(c: Conn, group: Key, sid: Key, channel: Key, members: set<Ticker>)
    ensures Adopted(c, group, sid, channel, members).subs == c.subs
            && Adopted(c, group, sid, channel, members).pending == c.pending
  {
    SnapshotAskedKeeps(Merged(c, members), sid, Unfresh(c, members));
  }

  lemma OkayKeepsOneSid(cfg: Config, c: Conn, id: Option<Key>, sid: Option<Key>, members: set<Ticker>)
    requires Steady(cfg, c) && BooksByGroup(cfg) && OneBookSid(c.subs, c.pending)
    ensures OneBookSid(HearOk(c, id, sid, members).conn.subs, HearOk(c, id, sid, members).conn.pending)
  {
    if HearOk(c, id, sid, members).resumes {
      var channel := c.channelOf[sid.value];
      AnswerKeepsOneSid(cfg, IdOf(c.applied), c.subs, c.pending, id.value, sid.value, channel);
      AdoptedKeepsSubs(Answered(c, id.value, sid.value, channel), c.pending[id.value].group, sid.value, channel,
          members);
    }
  }

  lemma SubscribedKeepsOneSid(cfg: Config, c: Conn, id: Option<Key>, sid: Key, channel: Key)
    requires Steady(cfg, c) && BooksByGroup(cfg) && OneBookSid(c.subs, c.pending)
             && (id.Some? ==> Honest(c, id.value, sid, channel))
    ensures OneBookSid(HearSubscribed(c, id, sid, channel).conn.subs, HearSubscribed(c, id, sid, channel).conn.pending)
  {
    if id.Some? && id.value in c.pending {
      AnswerKeepsOneSid(cfg, IdOf(c.applied), c.subs, c.pending, id.value, sid, channel);
    }
  }

  lemma RefusedKeepsOneSid(c: Conn, id: Option<Key>, sid: Option<Key>)
    requires OneBookSid(c.subs, c.pending)
    ensures OneBookSid(HearError(c, id, sid).conn.subs, HearError(c, id, sid).conn.pending)
  {
  }

  lemma HeardKeepsOneSid(cfg: Config, c: Conn, f: Frame)
    requires Steady(cfg, c) && BooksByGroup(cfg) && OneBookSid(c.subs, c.pending) && IsReply(f.body)
             && HonestFrame(c, f)
    ensures OneBookSid(HeardReply(c, f).conn.subs, HeardReply(c, f).conn.pending)
  {
    match f.body
    case Subscribed(id, sid, channel) => SubscribedKeepsOneSid(cfg, c, id, sid, channel);
    case Okay(id, members) => OkayKeepsOneSid(cfg, c, id, f.sid, members);
    case Refused(id) => RefusedKeepsOneSid(c, id, f.sid);
  }

  lemma DeltaKeepsControl(c: Conn, sid: Key, t: Ticker, side: Side, price: Price, delta: int)
    ensures SameControl(c, OnDelta(c, sid, t, side, price, delta))
  {
    if t in c.books {
      SnapshotAskedKeeps(c.(books := c.books[t := AfterDelta(c.books[t], side, price, delta)]), sid, {t});
    }
  }

  lemma SnapshotKeepsControl(c: Conn, sid: Key, t: Ticker, bids: seq<Level>, asks: seq<Level>)
    ensures SameControl(c, OnSnapshot(c, sid, t, bids, asks))
  {
  }

  lemma DataKeepsControl(cfg: Config, c: Conn, f: Frame)
    requires cfg.Valid() && !IsReply(f.body)
    ensures SameControl(c, Dispatched(cfg, c, f))
  {
    if f.sid.Some? {
      match f.body
      case Snapshot(t, bids, asks) => SnapshotKeepsControl(c, f.sid.value, t, bids, asks);
      case Delta(t, side, price, delta) => DeltaKeepsControl(c, f.sid.value, t, side, price, delta);
      case _ =>
    }
  }

  lemma FrameKeepsControl(cfg: Config, c: Conn, f: Frame)
    requires cfg.Valid() && !IsReply(f.body)
    ensures SameControl(c, OnFrame(cfg, c, f))
  {
    TrackedControl(c, f);
    DataKeepsControl(cfg, Tracked(c, f), f);
  }

  // ------------------------------------------------------------------ a whole connection

  /** A live connection, how many `set_group` calls have yet to take the lock, whether an error frame has
      refused a group's subscribe, and what its books are made of. */
  datatype Live = Live(conn: Conn, waiting: nat, refused: bool, history: History)

  datatype Step =
    | Want(group: Option<Group>)               // `set_group` up to the lock
    | Regroup                                  // `set_group` under the lock
    | Arrive(frame: Frame)

  ghost predicate Possible(cfg: Config, w: Live, s: Step) {
    match s
    case Want(group) => ValidGroup(cfg, group)
    case Regroup => w.waiting > 0
    case Arrive(f) => HonestFrame(w.conn, f)
  }

  ghost function Stepped(cfg: Config, w: Live, s: Step): Live
    requires cfg.Valid() && Possible(cfg, w, s)
  {
    match s
    case Want(group) => w.(conn := w.conn.(desired := group), waiting := w.waiting + 1)
    case Regroup => w.(conn := OnSetGroup(cfg, w.conn), waiting := w.waiting - 1)
    case Arrive(f) => Live(OnFrame(cfg, w.conn, f), w.waiting, w.refused
        || (f.body.Refused? && Refuses(w.conn, f.body.id)),
                           Followed(cfg, w.conn, w.history, f))
  }

  /** A connection just opened; books carried over from an earlier one are stale. */
  ghost function Connecting(desired: Option<Group>, books: Bus.Books): Conn {
    Conn(desired, None, map[], map[], map[], 1, false, false, Staled(books, books.Keys), map[], map[], [])
  }

  /** And after its first reconciliation. */
  ghost function Opened(cfg: Config, desired: Option<Group>, books: Bus.Books): Live
    requires cfg.Valid()
  {
    Live(Reconciled(cfg, Connecting(desired, books)), 0, false, map[])
  }

  /** The connection after any run of steps; one that is not possible does nothing. */
  ghost function Ran(cfg: Config, desired: Option<Group>, books: Bus.Books, steps: seq<Step>): Live
    requires cfg.Valid()
  {
    if steps == [] then Opened(cfg, desired, books) else
      var w := Ran(cfg, desired, books, steps[..|steps| - 1]);
      if Possible(cfg, w, steps[|steps| - 1]) then Stepped(cfg, w, steps[|steps| - 1]) else w
  }

  ghost predicate Upheld(cfg: Config, w: Live) {
    ProtocolHolds(cfg, w.conn, w.waiting, w.refused) && InSync(w.conn, w.history)
  }

  /** What a reply may leave undone before anything deferred is resumed. */
  ghost predicate Undone(c: Conn, d: Conn, f: Frame) {
    && d.desired == c.desired
    && (d.deferred
        || (!c.deferred && (d.applied == c.applied || (f.body.Refused? && Refuses(c, f.body.id) && d.applied.None?))))
  }

  lemma HeardUndone(cfg: Config, c: Conn, f: Frame)
    requires Steady(cfg, c) && IsReply(f.body) && HonestFrame(c, f)
    ensures Undone(c, HeardReply(c, f).conn, f)
    ensures !HeardReply(c, f).resumes ==>
            HeardReply(c, f).conn.deferred == c.deferred && HeardReply(c, f).conn.pending == c.pending
  {
    match f.body
    case Subscribed(id, sid, channel) =>
    case Okay(id, members) => HearOkKeeps(cfg, c, id, f.sid, members);
    case Refused(id) => HearErrorKeeps(cfg, c, id, f.sid);
  }

  lemma ResumedReply(cfg: Config, c: Conn, h: Heard, f: Frame)
    requires Steady(cfg, h.conn) && Undone(c, h.conn, f) && (c.deferred ==> c.pending != map[])
    requires !h.resumes ==> h.conn.deferred == c.deferred && h.conn.pending == c.pending
    ensures var d := After(cfg, h);
            && Steady(cfg, d) && d.desired == c.desired && (d.deferred ==> d.pending != map[])
            && (d.applied == d.desired || Undone(c, d, f))
  {
    if h.resumes { ResumeKeeps(cfg, h.conn); }
  }

  lemma AfterReply(cfg: Config, c: Conn, f: Frame)
    requires Steady(cfg, c) && IsReply(f.body) && HonestFrame(c, f) && (c.deferred ==> c.pending != map[])
    ensures var d := After(cfg, HeardReply(c, f));
            && Steady(cfg, d) && d.desired == c.desired && (d.deferred ==> d.pending != map[])
            && (d.applied == d.desired || Undone(c, d, f))
  {
    HeardKeeps(cfg, c, f);
    HeardUndone(cfg, c, f);
    ResumedReply(cfg, c, HeardReply(c, f), f);
  }

  /** The part of the invariant that speaks of the protocol alone. */
  ghost predicate ProtocolHolds(cfg: Config, c: Conn, waiting: nat, refused: bool) {
    && Steady(cfg, c) && OneBookSid(c.subs, c.pending)
    && (c.deferred ==> c.pending != map[])
    && (waiting == 0 ==> c.deferred || c.applied == c.desired || (refused && c.applied.None?))
  }

  lemma ReplyKeepsProtocol(cfg: Config, c: Conn, waiting: nat, refused: bool, f: Frame)
    requires ProtocolHolds(cfg, c, waiting, refused) && BooksByGroup(cfg) && IsReply(f.body) && HonestFrame(c, f)
    ensures ProtocolHolds(cfg, OnFrame(cfg, c, f), waiting, refused || (f.body.Refused? && Refuses(c, f.body.id)))
  {
    var mid := Tracked(c, f);
    TrackedControl(c, f);
    SameControlKeeps(cfg, c, mid);
    AfterReply(cfg, mid, f);
    HeardKeeps(cfg, mid, f);
    HeardKeepsOneSid(cfg, mid, f);
    AfterKeepsOneSid(cfg, HeardReply(mid, f));
  }

  lemma DataKeepsProtocol(cfg: Config, c: Conn, waiting: nat, refused: bool, f: Frame)
    requires ProtocolHolds(cfg, c, waiting, refused) && !IsReply(f.body)
    ensures ProtocolHolds(cfg, OnFrame(cfg, c, f), waiting, refused)
  {
    FrameKeepsControl(cfg, c, f);
    SameControlKeeps(cfg, c, OnFrame(cfg, c, f));
  }

  lemma FrameKeepsUpheld(cfg: Config, w: Live, f: Frame)
    requires Upheld(cfg, w) && BooksByGroup(cfg) && HonestFrame(w.conn, f)
    ensures Upheld(cfg, Stepped(cfg, w, Arrive(f)))
  {
    FrameKeepsSync(cfg, w.conn, w.history, f);
    if IsReply(f.body) {
      ReplyKeepsProtocol(cfg, w.conn, w.waiting, w.refused, f);
    } else {
      DataKeepsProtocol(cfg, w.conn, w.waiting, w.refused, f);
    }
  }

  lemma RegroupKeepsUpheld(cfg: Config, w: Live)
    requires Upheld(cfg, w) && BooksByGroup(cfg) && w.waiting > 0
    ensures Upheld(cfg, Stepped(cfg, w, Regroup))
  {
    var c, d := w.conn, Reconciled(cfg, w.conn);
    ReconcileKeeps(cfg, c);
    ReconcileKeepsOneSid(cfg, c);
    var e := OnSetGroup(cfg, c);
    SameControlKeeps(cfg, d, e);
    forall t | t in w.history && Bus.FreshIn(e.books, t) ensures Follows(e, t, w.history[t]) {
      ReconcileRetains(cfg, c, t);
      RetainsFollows(c, d, t, w.history[t]);
      RetainsFollows(d, e, t, w.history[t]);
    }
  }

  lemma WantKeepsUpheld(cfg: Config, w: Live, group: Option<Group>)
    requires Upheld(cfg, w) && ValidGroup(cfg, group)
    ensures Upheld(cfg, Stepped(cfg, w, Want(group)))
  {
    var d := w.conn.(desired := group);
    assert Steady(cfg, d);
    forall t | t in w.history && Bus.FreshIn(d.books, t) ensures Follows(d, t, w.history[t]) {
      assert Follows(w.conn, t, w.history[t]);
    }
  }

  lemma OpenedIsUpheld(cfg: Config, desired: Option<Group>, books: Bus.Books)
    requires cfg.Valid() && BooksByGroup(cfg) && ValidGroup(cfg, desired)
    ensures Upheld(cfg, Opened(cfg, desired, books))
  {
    var c := Connecting(desired, books);
    ReconcileKeeps(cfg, c);
    ReconcileKeepsOneSid(cfg, c);
  }

  lemma {:induction false} RunIsUpheld(cfg: Config, desired: Option<Group>, books: Bus.Books, steps: seq<Step>)
    requires cfg.Valid() && BooksByGroup(cfg) && ValidGroup(cfg, desired)
    ensures Upheld(cfg, Ran(cfg, desired, books, steps))
  {
    if steps == [] {
      OpenedIsUpheld(cfg, desired, books);
    } else {
      var w, s := Ran(cfg, desired, books, steps[..|steps| - 1]), steps[|steps| - 1];
      RunIsUpheld(cfg, desired, books, steps[..|steps| - 1]);
      if Possible(cfg, w, s) {
        match s
        case Want(group) => WantKeepsUpheld(cfg, w, group);
        case Regroup => RegroupKeepsUpheld(cfg, w);
        case Arrive(f) => FrameKeepsUpheld(cfg, w, f);
      }
    }
  }

  /** On every run of a connection: deferred means that a subscribe awaits its reply; with no `set_group`
      on its way and nothing pending, what is applied is what is desired, or nothing because an error frame
      refused the subscribe; and an applied group has a sid or a subscribe that awaits one. */
  lemma ProtocolIsSound(cfg: Config, desired: Option<Group>, books: Bus.Books, steps: seq<Step>)
    requires cfg.Valid() && BooksByGroup(cfg) && ValidGroup(cfg, desired)
    ensures var w := Ran(cfg, desired, books, steps); var c := w.conn;
            && (c.deferred ==> c.pending != map[])
            && (c.pending == map[] && w.waiting == 0 ==> c.applied == c.desired || (w.refused && c.applied.None?))
            && (c.applied.Some? ==> HasSid(c, c.applied.value.id) || Subscribing(c.pending, c.applied.value.id))
  {
    RunIsUpheld(cfg, desired, books, steps);
  }

  /** The first reconciliation sends soundly too. */
  lemma FirstSendIsSound(cfg: Config, desired: Option<Group>, books: Bus.Books)
    requires cfg.Valid() && ValidGroup(cfg, desired)
    ensures var c := Connecting(desired, books);
            AllSendable(cfg, AskedFirehose(cfg, c), Pieces(cfg, c))
            && Opened(cfg, desired, books).conn == Reconciled(cfg, c)
  {
    ReconcileIsSendable(cfg, Connecting(desired, books));
  }

  /** The connection as a step finds it when it goes on to send a plan change. */
  ghost function AboutToSend(cfg: Config, c: Conn, s: Step): Option<Conn> {
    match s
    case Want(_) => None
    case Regroup => if c.pending == map[] then Some(c) else None
    case Arrive(f) =>
      if !IsReply(f.body) then None else
        var h := HeardReply(Tracked(c, f), f);
        if h.resumes && h.conn.deferred && h.conn.pending == map[] then Some(h.conn.(deferred := false)) else None
  }

  /** Every plan change any run sends, it sends in pieces that name few enough markets, find the sids they
      need, and never change a group whose own subscribe still awaits a reply. */
  lemma EverySendIsSound(cfg: Config, desired: Option<Group>, books: Bus.Books, steps: seq<Step>, s: Step)
    requires cfg.Valid() && BooksByGroup(cfg) && ValidGroup(cfg, desired)
    requires Possible(cfg, Ran(cfg, desired, books, steps), s)
    ensures var at := AboutToSend(cfg, Ran(cfg, desired, books, steps).conn, s);
            at.Some? ==> AllSendable(cfg, AskedFirehose(cfg, at.value), Pieces(cfg, at.value))
  {
    RunIsUpheld(cfg, desired, books, steps);
    var c := Ran(cfg, desired, books, steps).conn;
    var at := AboutToSend(cfg, c, s);
    if at.Some? {
      if s.Arrive? {
        var mid := Tracked(c, s.frame);
        TrackedControl(c, s.frame);
        SameControlKeeps(cfg, c, mid);
        HeardKeeps(cfg, mid, s.frame);
        DeferredIsSteady(cfg, HeardReply(mid, s.frame).conn);
      }
      ReconcileIsSendable(cfg, at.value);
    }
  }

  /** On every run: a fresh book whose history was not lost is its last snapshot and then exactly its
      market's deltas among frames that were numbered one after the other on one live sid. */
  lemma BooksFollowTheirFrames(cfg: Config, desired: Option<Group>, books: Bus.Books, steps: seq<Step>, t: Ticker)
    requires cfg.Valid() && BooksByGroup(cfg) && ValidGroup(cfg, desired)
    requires var w := Ran(cfg, desired, books, steps); t in w.history && Bus.FreshIn(w.conn.books, t)
    ensures var w := Ran(cfg, desired, books, steps);
            && Contiguous(t, w.history[t]) && w.conn.books[t] == Folded(t, w.history[t])
            && LiveOn(w.conn, w.history[t][0].sid.value, t)
  {
    RunIsUpheld(cfg, desired, books, steps);
  }

  // ------------------------------------------------------------------ what sequence numbers do not show

  lemma ApplyingBeside(cfg: Config, c: Conn, f: Frame, t: Ticker)
    requires cfg.Valid() && f.sid.Some? && f.body.Snapshot? && f.body.ticker != t
    ensures var d := Dispatched(cfg, c, f);
            && d.lastSeq == c.lastSeq && d.applied == c.applied && d.subs == c.subs
            && (t in d.books <==> t in c.books) && (t in c.books ==> d.books[t] == c.books[t])
  {
  }

  /** What numbering cannot show: while its sid awaits a snapshot, a snapshot of another market is accepted at any
      number at all, and a fresh book stays as it was. Its history goes on exactly when that number is the next. */
  lemma AwaitedSnapshotHidesLoss(cfg: Config, c: Conn, sid: Key, f: Frame, t: Ticker, n: int, h: seq<Frame>)
    requires cfg.Valid() && f.sid == Some(sid) && f.seqNo == Some(n) && f.body.Snapshot? && f.body.ticker != t
    requires sid in c.resyncing && Bus.FreshIn(c.books, t) && Follows(c, t, h) && h[0].sid == Some(sid)
    ensures var d := OnFrame(cfg, c, f);
            && Bus.FreshIn(d.books, t) && d.books[t] == c.books[t] && d.lastSeq[sid] == n
            && (Follows(d, t, h + [f]) <==> n == h[0].seqNo.value + |h|)
  {
    TrackedControl(c, f);
    assert Judged(Known(c, f), sid, f.seqNo) == Baseline;
    ApplyingBeside(cfg, Tracked(c, f), f, t);
    var g := h + [f];
    if n == h[0].seqNo.value + |h| {
      RunGoesOn(c, t, h, f);
      FoldedSnoc(t, h, f);
    } else {
      assert g[|h|].seqNo == Some(n);
    }
  }

  /** A history is given up exactly when it stops being true: of a frame that decodes, is sequenced, comes on the
      history's sid and leaves the book fresh, the history with that frame holds if and only if it is kept. */
  lemma HistoryEndsIff(cfg: Config, c: Conn, f: Frame, t: Ticker, h: seq<Frame>)
    requires cfg.Valid() && OneBookSid(c.subs, c.pending) && Follows(c, t, h) && OnSid(h, f) && f.seqNo.Some?
    requires !IsReply(f.body) && !f.body.Undecodable? && !(Takes(c, f) && f.body.ticker == t)
    requires Bus.FreshIn(OnFrame(cfg, c, f).books, t)
    ensures Follows(OnFrame(cfg, c, f), t, h + [f]) <==> !Lost(c, h, f)
  {
    if Lost(c, h, f) {
      assert (h + [f])[|h|] == f && h[|h| - 1].seqNo == Some(h[0].seqNo.value + (|h| - 1));
    } else {
      var mid := Tracked(c, f);
      TrackedControl(c, f);
      BookBeside(cfg, mid, f, t);
      TrackedFacts(c, f, t);
      RunGoesOn(c, t, h, f);
      assert Caught(mid, t, h, h + [f]);
      CaughtUp(mid, OnFrame(cfg, c, f), t, h, f);
    }
  }

  lemma SnapshotApplied(cfg: Config, c: Conn, f: Frame)
    requires cfg.Valid() && Takes(c, f)
    ensures var d := OnFrame(cfg, c, f); var t := f.body.ticker;
            && d.lastSeq == Tracked(c, f).lastSeq && LiveOn(d, f.sid.value, t)
            && Bus.FreshIn(d.books, t) && d.books[t] == AfterSnapshot(EMPTY_BOOK, f.body.bids, f.body.asks)
  {
    TrackedControl(c, f);
  }

  /** Whatever its number, a snapshot that a book takes makes it fresh; it begins a history exactly when its number
      is not before the baseline. */
  lemma SnapshotBeginsIff(cfg: Config, c: Conn, f: Frame)
    requires cfg.Valid() && Takes(c, f)
    ensures Bus.FreshIn(OnFrame(cfg, c, f).books, f.body.ticker)
    ensures Follows(OnFrame(cfg, c, f), f.body.ticker, [f]) <==> AtBaseline(c, f)
  {
    TrackedControl(c, f);
    SnapshotApplied(cfg, c, f);
  }

  /** A snapshot that is not awaited and repeats a number is reported as a duplicate and then applied all the same.
      The book it makes fresh follows it exactly when the number is the last one; with an earlier one, frames
      between have gone by that this book has not seen. */
  lemma RepeatedSnapshotRevives(cfg: Config, c: Conn, sid: Key, f: Frame, n: int)
    requires cfg.Valid() && f.sid == Some(sid) && f.seqNo == Some(n) && f.body.Snapshot?
    requires sid !in c.resyncing && sid in c.lastSeq && n <= c.lastSeq[sid] && Takes(c, f)
    ensures Bus.FreshIn(OnFrame(cfg, c, f).books, f.body.ticker) && OnFrame(cfg, c, f).lastSeq == c.lastSeq
    ensures Follows(OnFrame(cfg, c, f), f.body.ticker, [f]) <==> n == c.lastSeq[sid]
  {
    TrackedControl(c, f);
    assert Judged(Known(c, f), sid, f.seqNo) == Repeated;
    SnapshotBeginsIff(cfg, c, f);
  }
}
