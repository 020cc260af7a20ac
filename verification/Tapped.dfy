/** The tap and the audit over the books of a live connection: `src/tape/recorder/tap.py` and
    `src/tape/recorder/auditor.py` on `src/tape/recorder/supervisor.py`. */
module Tapped {
  import opened Prelude
  import opened OrderBook
  import opened Planner
  import opened Subscription
  import opened Feed
  import Audit
  import Bus
  import Tap

  // ------------------------------------------------------------------ what a change does, in levels

  /** A recorded delta moves one level of its own side, a recorded snapshot replaces all, as the book did. */
  lemma ChangeMeans(b: BookState, t: Ticker, bids: seq<Level>, asks: seq<Level>, side: Side, price: Price, delta: int,
                    at: int)
    ensures var after := Tap.AfterChange(b, Tap.Replace(t, bids, asks, at));
            !after.stale ==> forall l: Level ::
              && (l in bids <==> l.price in after.levels.bids && after.levels.bids[l.price] == l.count)
              && (l in asks <==> l.price in after.levels.asks && after.levels.asks[l.price] == l.count)
    ensures var after := Tap.AfterChange(b, Tap.Move(t, side, price, delta, at));
            && (b.stale ==> after == b)
            && (!b.stale && side == Bid ==>
                  MovesOwn(b.levels.bids, after.levels.bids, after, price, delta) && after.levels.asks == b.levels.asks)
            && (!b.stale && side == Ask ==>
                  MovesOwn(b.levels.asks, after.levels.asks, after, price, delta) && after.levels.bids == b.levels.bids)
  {
    SnapshotMeans(b, bids, asks);
    DeltaMeans(b, side, price, delta);
  }

  // ------------------------------------------------------------------ what is not book data only takes books away

  /** The market's book is as it was, or stale with the same levels, or gone. */
  ghost predicate OnlyLeft(a: Bus.Books, b: Bus.Books, t: Ticker) {
    t in b ==> t in a && (b[t] == a[t] || b[t] == BookState(a[t].levels, true))
  }

  lemma OnlyLeftChain(a: Bus.Books, b: Bus.Books, c: Bus.Books, t: Ticker)
    requires OnlyLeft(a, b, t) && OnlyLeft(b, c, t)
    ensures OnlyLeft(a, c, t)
  {
  }

  lemma ReleasingOnlyLeaves(books: Bus.Books, tickers: set<Ticker>, wanted: set<Ticker>, t: Ticker)
    ensures OnlyLeft(books, Released(books, tickers, wanted), t)
  {
  }

  lemma SendingOnlyLeaves(cfg: Config, c: Conn, piece: Change, t: Ticker)
    ensures OnlyLeft(c.books, SentPiece(cfg, c, piece).books, t)
  {
    match piece
    case RemoveGroup(_) => ReleasingOnlyLeaves(c.books, TickersOf(c.applied), TickersOf(c.desired), t);
    case RemoveMarkets(_, ts) => ReleasingOnlyLeaves(c.books, Elems(ts), TickersOf(c.desired), t);
    case _ =>
  }

  lemma {:induction false} RunOnlyLeaves(cfg: Config, c: Conn, pieces: seq<Change>, t: Ticker)
    ensures OnlyLeft(c.books, RunPieces(cfg, c, pieces).books, t)
    decreases |pieces|
  {
    if pieces != [] && !Blocked(c.pending, pieces[0]) {
      SendingOnlyLeaves(cfg, c, pieces[0], t);
      RunOnlyLeaves(cfg, SentPiece(cfg, c, pieces[0]), pieces[1..], t);
      OnlyLeftChain(c.books, SentPiece(cfg, c, pieces[0]).books, RunPieces(cfg, c, pieces).books, t);
    }
  }

  lemma ReconcileOnlyLeaves(cfg: Config, c: Conn, t: Ticker)
    requires cfg.Valid()
    ensures OnlyLeft(c.books, Reconciled(cfg, c).books, t)
  {
    if c.pending == map[] { RunOnlyLeaves(cfg, AskedFirehose(cfg, c), Pieces(cfg, c), t); }
  }

  /** `set_group` under the lock. */
  lemma GroupOnlyLeaves(cfg: Config, c: Conn, t: Ticker)
    requires cfg.Valid()
    ensures OnlyLeft(c.books, OnSetGroup(cfg, c).books, t)
  {
    ReconcileOnlyLeaves(cfg, c, t);
  }

  lemma AdoptingKeepsBooks(c: Conn, group: Key, sid: Key, channel: Key, members: set<Ticker>)
    ensures Adopted(c, group, sid, channel, members).books == c.books
  {
    AskedData(Merged(c, members), sid, Unfresh(c, members));
  }

  lemma OkayKeepsBooks(c: Conn, id: Option<Key>, sid: Option<Key>, members: set<Ticker>)
    ensures HearOk(c, id, sid, members).conn.books == c.books
  {
    if HearOk(c, id, sid, members).resumes {
      var channel, group := c.channelOf[sid.value], c.pending[id.value].group;
      AdoptingKeepsBooks(Answered(c, id.value, sid.value, channel), group, sid.value, channel, members);
    }
  }

  lemma SubscribedKeepsBooks(c: Conn, id: Option<Key>, sid: Key, channel: Key)
    ensures HearSubscribed(c, id, sid, channel).conn.books == c.books
  {
  }

  lemma RefusedKeepsBooks(c: Conn, id: Option<Key>, sid: Option<Key>)
    ensures HearError(c, id, sid).conn.books == c.books
  {
  }

  lemma HeardKeepsBooks(c: Conn, f: Frame)
    requires IsReply(f.body)
    ensures HeardReply(c, f).conn.books == c.books
  {
    match f.body
    case Subscribed(id, sid, channel) => SubscribedKeepsBooks(c, id, sid, channel);
    case Okay(id, members) => OkayKeepsBooks(c, id, f.sid, members);
    case Refused(id) => RefusedKeepsBooks(c, id, f.sid);
  }

  lemma ReplyOnlyLeaves(cfg: Config, c: Conn, f: Frame, t: Ticker)
    requires cfg.Valid() && IsReply(f.body)
    ensures OnlyLeft(c.books, Dispatched(cfg, c, f).books, t)
  {
    var h := HeardReply(c, f);
    HeardKeepsBooks(c, f);
    if h.resumes && h.conn.deferred && h.conn.pending == map[] {
      ReconcileOnlyLeaves(cfg, h.conn.(deferred := false), t);
    }
  }

  lemma TrackingOnlyLeaves(c: Conn, f: Frame, t: Ticker)
    ensures OnlyLeft(c.books, Tracked(c, f).books, t)
  {
    if f.sid.Some? {
      var d := c.(lastSeq := Advanced(Known(c, f), f.sid.value, f.seqNo));
      ResyncedFacts(d, f.sid.value, true);
      ResyncedFacts(d, f.sid.value, false);
    }
  }

  // ------------------------------------------------------------------ what the tap of a market sees

  /** What happens to a market's book when nothing is applied to it. */
  ghost function Turn(a: Bus.Books, b: Bus.Books, t: Ticker): seq<Tap.Step> {
    if t !in a then [] else if t !in b then [Tap.Dropped] else if b[t] != a[t] then [Tap.TurnStale] else []
  }

  /** The book message the market's book takes, if the frame is one. */
  ghost function Applies(c: Conn, f: Frame, at: int, t: Ticker): seq<Tap.Step> {
    if f.sid.None? || !LiveOn(c, f.sid.value, t) then []
    else match f.body
      case Snapshot(u, bids, asks) => if u == t then [Tap.Received(Tap.Replace(t, bids, asks, at))] else []
      case Delta(u, side, price, delta) => if u == t then [Tap.Received(Tap.Move(t, side, price, delta, at))] else []
      case _ => []
  }

  ghost function FrameSeen(cfg: Config, c: Conn, f: Frame, at: int, t: Ticker): seq<Tap.Step>
    requires cfg.Valid()
  {
    var mid := Tracked(c, f);
    Turn(c.books, mid.books, t) +
    (if IsReply(f.body) then Turn(mid.books, Dispatched(cfg, mid, f).books, t) else Applies(mid, f, at, t))
  }

  /** The market's book is the one that `l` describes. */
  ghost predicate Carries(books: Bus.Books, t: Ticker, l: Tap.Local) {
    && (l.book.Some? <==> t in books)
    && (t in books ==> l.book.value.state == books[t])
  }

  lemma OneTapStep(l: Tap.Local, s: Tap.Step)
    ensures Tap.LocalAfter(l, [s]) == Tap.LocalNext(l, s)
  {
    assert [s][..0] == [];
  }

  lemma {:induction false} TapStepsJoin(l: Tap.Local, a: seq<Tap.Step>, b: seq<Tap.Step>)
    ensures Tap.LocalAfter(l, a + b) == Tap.LocalAfter(Tap.LocalAfter(l, a), b)
  {
    if b == [] {
      assert a + b == a;
    } else {
      TapStepsJoin(l, a, b[..|b| - 1]);
      assert (a + b)[..|a + b| - 1] == a + b[..|b| - 1];
    }
  }

  lemma TurnIsSeen(a: Bus.Books, b: Bus.Books, t: Ticker, l: Tap.Local)
    requires OnlyLeft(a, b, t) && Carries(a, t, l)
    ensures Carries(b, t, Tap.LocalAfter(l, Turn(a, b, t)))
  {
    if t in a && t !in b {
      OneTapStep(l, Tap.Dropped);
    } else if t in a && b[t] != a[t] {
      OneTapStep(l, Tap.TurnStale);
    }
  }

  lemma SnapshotIsSeen(c: Conn, sid: Key, t: Ticker, bids: seq<Level>, asks: seq<Level>, at: int, l: Tap.Local)
    requires Carries(c.books, t, l) && LiveOn(c, sid, t)
    ensures Carries(OnSnapshot(c, sid, t, bids, asks).books, t,
                    Tap.LocalNext(l, Tap.Received(Tap.Replace(t, bids, asks, at))))
  {
  }

  lemma DeltaIsSeen(c: Conn, sid: Key, t: Ticker, side: Side, price: Price, delta: int, at: int, l: Tap.Local)
    requires Carries(c.books, t, l) && LiveOn(c, sid, t)
    ensures Carries(OnDelta(c, sid, t, side, price, delta).books, t,
                    Tap.LocalNext(l, Tap.Received(Tap.Move(t, side, price, delta, at))))
  {
    if t in c.books {
      AskedData(c.(books := c.books[t := AfterDelta(c.books[t], side, price, delta)]), sid, {t});
    }
  }

  lemma OtherDelta(c: Conn, sid: Key, u: Ticker, side: Side, price: Price, delta: int, t: Ticker)
    requires u != t || !LiveOn(c, sid, t)
    ensures t in OnDelta(c, sid, u, side, price, delta).books <==> t in c.books
    ensures t in c.books ==> OnDelta(c, sid, u, side, price, delta).books[t] == c.books[t]
  {
    if LiveOn(c, sid, u) && u in c.books {
      AskedData(c.(books := c.books[u := AfterDelta(c.books[u], side, price, delta)]), sid, {u});
    }
  }

  lemma OtherBooksStay(c: Conn, f: Frame, at: int, t: Ticker)
    requires Applies(c, f, at, t) == []
    ensures t in DataApplied(c, f).books <==> t in c.books
    ensures t in c.books ==> DataApplied(c, f).books[t] == c.books[t]
  {
    match f.body
    case Delta(u, side, price, delta) =>
      if f.sid.Some? { OtherDelta(c, f.sid.value, u, side, price, delta, t); }
    case _ =>
  }

  lemma DataIsSeen(c: Conn, f: Frame, at: int, t: Ticker, l: Tap.Local)
    requires Carries(c.books, t, l)
    ensures Carries(DataApplied(c, f).books, t, Tap.LocalAfter(l, Applies(c, f, at, t)))
  {
    if Applies(c, f, at, t) == [] {
      OtherBooksStay(c, f, at, t);
    } else {
      OneTapStep(l, Applies(c, f, at, t)[0]);
      if f.body.Snapshot? {
        SnapshotIsSeen(c, f.sid.value, t, f.body.bids, f.body.asks, at, l);
      } else {
        DeltaIsSeen(c, f.sid.value, t, f.body.side, f.body.price, f.body.delta, at, l);
      }
    }
  }

  lemma FrameIsSeen(cfg: Config, c: Conn, f: Frame, at: int, t: Ticker, l: Tap.Local)
    requires cfg.Valid() && Carries(c.books, t, l)
    ensures Carries(OnFrame(cfg, c, f).books, t, Tap.LocalAfter(l, FrameSeen(cfg, c, f, at, t)))
  {
    var mid := Tracked(c, f);
    TrackingOnlyLeaves(c, f, t);
    var turned := Turn(c.books, mid.books, t);
    var m := Tap.LocalAfter(l, turned);
    TurnIsSeen(c.books, mid.books, t, l);
    if IsReply(f.body) {
      ReplyOnlyLeaves(cfg, mid, f, t);
      TurnIsSeen(mid.books, Dispatched(cfg, mid, f).books, t, m);
      TapStepsJoin(l, turned, Turn(mid.books, Dispatched(cfg, mid, f).books, t));
    } else {
      DataIsSeen(mid, f, at, t, m);
      TapStepsJoin(l, turned, Applies(mid, f, at, t));
    }
  }

  // ------------------------------------------------------------------ a whole run

  /** A step of the connection, and when its frame was received. */
  datatype Timed = Timed(step: Step, at: int)

  /** The connection after more steps; one that is not possible does nothing. */
  ghost function Gone(cfg: Config, w: Live, steps: seq<Timed>): Live
    requires cfg.Valid()
  {
    if steps == [] then w else
      var v, s := Gone(cfg, w, steps[..|steps| - 1]), steps[|steps| - 1].step;
      if Possible(cfg, v, s) then Stepped(cfg, v, s) else v
  }

  ghost function StepSeen(cfg: Config, w: Live, s: Timed, t: Ticker): seq<Tap.Step>
    requires cfg.Valid()
  {
    if !Possible(cfg, w, s.step) then []
    else match s.step
      case Want(_) => []
      case Regroup => Turn(w.conn.books, OnSetGroup(cfg, w.conn).books, t)
      case Arrive(f) => FrameSeen(cfg, w.conn, f, s.at, t)
  }

  ghost function Seen(cfg: Config, w: Live, steps: seq<Timed>, t: Ticker): seq<Tap.Step>
    requires cfg.Valid()
  {
    if steps == [] then [] else
      var init := steps[..|steps| - 1];
      Seen(cfg, w, init, t) + StepSeen(cfg, Gone(cfg, w, init), steps[|steps| - 1], t)
  }

  lemma StepIsSeen(cfg: Config, w: Live, s: Timed, t: Ticker, l: Tap.Local)
    requires cfg.Valid() && Possible(cfg, w, s.step) && Carries(w.conn.books, t, l)
    ensures Carries(Stepped(cfg, w, s.step).conn.books, t, Tap.LocalAfter(l, StepSeen(cfg, w, s, t)))
  {
    match s.step
    case Want(_) =>
    case Regroup =>
      GroupOnlyLeaves(cfg, w.conn, t);
      TurnIsSeen(w.conn.books, OnSetGroup(cfg, w.conn).books, t, l);
    case Arrive(f) => FrameIsSeen(cfg, w.conn, f, s.at, t, l);
  }

  /** The book a tap is told of is the connection's own, after every step. */
  lemma {:induction false} TapFollowsTheBook(cfg: Config, w: Live, steps: seq<Timed>, t: Ticker, l: Tap.Local)
    requires cfg.Valid() && Carries(w.conn.books, t, l)
    ensures Carries(Gone(cfg, w, steps).conn.books, t, Tap.LocalAfter(l, Seen(cfg, w, steps, t)))
  {
    if steps != [] {
      var init, s := steps[..|steps| - 1], steps[|steps| - 1];
      var v := Gone(cfg, w, init);
      TapFollowsTheBook(cfg, w, init, t, l);
      TapStepsJoin(l, Seen(cfg, w, init, t), StepSeen(cfg, v, s, t));
      if Possible(cfg, v, s.step) { StepIsSeen(cfg, v, s, t, Tap.LocalAfter(l, Seen(cfg, w, init, t))); }
    }
  }

  lemma {:induction false} SeenBefore(cfg: Config, w: Live, steps: seq<Timed>, t: Ticker, i: nat)
    requires cfg.Valid() && i <= |steps|
    ensures Seen(cfg, w, steps[..i], t) <= Seen(cfg, w, steps, t)
  {
    if i == |steps| {
      assert steps[..i] == steps;
    } else {
      SeenBefore(cfg, w, steps[..|steps| - 1], t, i);
      assert steps[..|steps| - 1][..i] == steps[..i];
    }
  }

  /** The window of a tap opened on the connection and closed after the steps. */
  ghost function WindowOn(cfg: Config, w: Live, steps: seq<Timed>, t: Ticker, l: Tap.Local, max: nat): Tap.Window
    requires cfg.Valid()
  {
    Tap.WindowOf(t, l, Seen(cfg, w, steps, t), max)
  }

  /** A tap that can be opened: `l` is the market's book on the connection, or that there is none. */
  ghost predicate Opens(w: Live, t: Ticker, l: Tap.Local) {
    Carries(w.conn.books, t, l) && Tap.IdsAreSpent(l) && Tap.StateOf(l).WellFormed()
  }

  lemma ImageReadsBack(l: Tap.Local, w: Tap.Window)
    requires Tap.StateOf(l).WellFormed() && w.start == Some(Tap.ImageOf(Tap.StateOf(l).levels))
    ensures Audit.LevelsIn(w.start.value) == Tap.StateOf(l).levels
  {
    ListingIsValid(Tap.StateOf(l).levels.bids, Bid);
    ListingIsValid(Tap.StateOf(l).levels.asks, Ask);
  }

  /** At every moment of a window without a fault the connection has a book for the market, and it is one of the states
      the window spans. */
  lemma BookIsInWindow(cfg: Config, w: Live, steps: seq<Timed>, t: Ticker, l: Tap.Local, max: nat, i: nat)
      returns (k: nat)
    requires cfg.Valid() && Opens(w, t, l) && i <= |steps| && WindowOn(cfg, w, steps, t, l, max).fault.None?
    ensures k == |Tap.Effects(l, Seen(cfg, w, steps[..i], t))|
    ensures var win, books := WindowOn(cfg, w, steps, t, l, max), Gone(cfg, w, steps[..i]).conn.books;
            win.start.Some? && k <= |win.events| && t in books && books[t] == Audit.StateAt(win, k)
  {
    var seen, before := Seen(cfg, w, steps, t), Seen(cfg, w, steps[..i], t);
    SeenBefore(cfg, w, steps, t, i);
    assert seen[..|before|] == before;
    k := |Tap.Effects(l, before)|;
    Tap.WindowReplaysTheBook(t, l, seen, max, |before|);
    ImageReadsBack(l, WindowOn(cfg, w, steps, t, l, max));
    TapFollowsTheBook(cfg, w, steps[..i], t, l);
  }

  // ------------------------------------------------------------------ nothing between the steps

  lemma {:induction false} UnbrokenIsFresh(l: Tap.Local, steps: seq<Tap.Step>, i: nat)
    requires Tap.Unbroken(l, steps) && i <= |steps|
    ensures Tap.SameAndFresh(l, Tap.LocalAfter(l, steps[..i]))
  {
    Tap.UnbrokenBefore(l, steps, i);
  }

  lemma TurnBreaks(l: Tap.Local, before: seq<Tap.Step>, s: Tap.Step, rest: seq<Tap.Step>)
    requires Tap.Unbroken(l, before + [s] + rest)
    ensures s.Received?
  {
    var all := before + [s] + rest;
    UnbrokenIsFresh(l, all, |before| + 1);
    assert all[..|before| + 1] == before + [s];
    assert (before + [s])[..|before|] == before;
  }

  lemma NoTurn(l: Tap.Local, before: seq<Tap.Step>, a: Bus.Books, b: Bus.Books, t: Ticker, rest: seq<Tap.Step>)
    requires Tap.Unbroken(l, before + Turn(a, b, t) + rest)
    ensures Turn(a, b, t) == []
  {
    if Turn(a, b, t) != [] {
      assert Turn(a, b, t) == [Turn(a, b, t)[0]];
      TurnBreaks(l, before, Turn(a, b, t)[0], rest);
    }
  }

  lemma OneEach(c: Conn, f: Frame, at: int, t: Ticker, a: Bus.Books, b: Bus.Books)
    ensures |Applies(c, f, at, t)| <= 1 && |Turn(a, b, t)| <= 1
  {
  }

  lemma OneAtATime(cfg: Config, w: Live, s: Timed, t: Ticker, l: Tap.Local, before: seq<Tap.Step>)
    requires cfg.Valid() && Tap.Unbroken(l, before + StepSeen(cfg, w, s, t))
    ensures |StepSeen(cfg, w, s, t)| <= 1
  {
    match s.step
    case Want(_) =>
    case Regroup =>
    case Arrive(f) =>
      var mid := Tracked(w.conn, f);
      var dispatched := Dispatched(cfg, mid, f).books;
      var first := Turn(w.conn.books, mid.books, t);
      var rest := if IsReply(f.body) then Turn(mid.books, dispatched, t) else Applies(mid, f, s.at, t);
      OneEach(mid, f, s.at, t, mid.books, dispatched);
      if Possible(cfg, w, s.step) {
        assert before + first + rest == before + StepSeen(cfg, w, s, t);
        NoTurn(l, before, w.conn.books, mid.books, t, rest);
      }
  }

  lemma OneMore(l: Tap.Local, a: seq<Tap.Step>, b: seq<Tap.Step>, j: nat)
    requires Tap.Unbroken(l, a + b) && |b| <= 1 && j < |a + b|
    ensures Tap.Unbroken(l, a) && j <= |a| && (a + b)[..j] == a[..j]
  {
    Tap.UnbrokenBefore(l, a + b, |a|);
    assert (a + b)[..|a|] == a;
  }

  lemma {:induction false} MomentOf(cfg: Config, w: Live, steps: seq<Timed>, t: Ticker, l: Tap.Local, j: nat)
      returns (i: nat)
    requires cfg.Valid() && Tap.Unbroken(l, Seen(cfg, w, steps, t)) && j <= |Seen(cfg, w, steps, t)|
    ensures i <= |steps| && Seen(cfg, w, steps, t)[..j] == Seen(cfg, w, steps[..i], t)
  {
    if j == |Seen(cfg, w, steps, t)| {
      i := |steps|;
      assert steps[..i] == steps;
      assert Seen(cfg, w, steps, t)[..j] == Seen(cfg, w, steps, t);
    } else {
      var init := steps[..|steps| - 1];
      var before, now := Seen(cfg, w, init, t), StepSeen(cfg, Gone(cfg, w, init), steps[|steps| - 1], t);
      OneAtATime(cfg, Gone(cfg, w, init), steps[|steps| - 1], t, l, before);
      OneMore(l, before, now, j);
      i := MomentOf(cfg, w, init, t, l, j);
      assert init[..i] == steps[..i];
    }
  }

  /** And each state the window spans was the connection's book after some step. */
  lemma WindowWasTheBook(cfg: Config, w: Live, steps: seq<Timed>, t: Ticker, l: Tap.Local, max: nat, k: nat)
      returns (i: nat)
    requires cfg.Valid() && Opens(w, t, l) && WindowOn(cfg, w, steps, t, l, max).fault.None?
    requires k <= |WindowOn(cfg, w, steps, t, l, max).events|
    ensures i <= |steps|
    ensures var win, books := WindowOn(cfg, w, steps, t, l, max), Gone(cfg, w, steps[..i]).conn.books;
            win.start.Some? && t in books && books[t] == Audit.StateAt(win, k)
  {
    var seen := Seen(cfg, w, steps, t);
    Tap.WindowIsWholeIff(t, l, seen, max);
    var j := Audit.LiveWindowsReplay(t, l, seen, max, k);
    i := MomentOf(cfg, w, steps, t, l, j);
    UnbrokenIsFresh(l, seen, j);
    TapFollowsTheBook(cfg, w, steps[..i], t, l);
  }

  /** The connection's book of the market had exactly these levels at some moment of the steps. */
  ghost predicate HadLevels(cfg: Config, w: Live, steps: seq<Timed>, t: Ticker, rest: Levels)
    requires cfg.Valid()
  {
    exists i: nat :: i <= |steps| && HasLevels(Gone(cfg, w, steps[..i]).conn.books, t, rest)
  }

  ghost predicate HasLevels(books: Bus.Books, t: Ticker, rest: Levels) {
    t in books && books[t].levels == rest
  }

  /** What an audit says of the books a connection really held: over a window without a fault it finds the reply
      inconsistent exactly when the market's book never had those levels while the tap was open. */
  lemma AuditSpeaksOfTheBook(cfg: Config, w: Live, steps: seq<Timed>, t: Ticker, l: Tap.Local, max: nat, rest: Levels,
                             at: nat, v: Audit.Verdict)
    requires cfg.Valid() && Opens(w, t, l)
    requires var win := WindowOn(cfg, w, steps, t, l, max);
             win.fault.None? && win.start.Some? && at <= |win.events| && Audit.IsVerdict(win, rest, at, v)
    ensures v.outcome.Inconsistent? <==> !HadLevels(cfg, w, steps, t, rest)
  {
    var win := WindowOn(cfg, w, steps, t, l, max);
    if i: nat :| i <= |steps| && HasLevels(Gone(cfg, w, steps[..i]).conn.books, t, rest) {
      var k := BookIsInWindow(cfg, w, steps, t, l, max, i);
      assert Audit.MatchAt(win, rest, k);
    }
    if !v.outcome.Inconsistent? {
      var k: nat :| k <= |win.events| && Audit.MatchAt(win, rest, k);
      var i := WindowWasTheBook(cfg, w, steps, t, l, max, k);
      assert HasLevels(Gone(cfg, w, steps[..i]).conn.books, t, rest);
    }
  }

  // ------------------------------------------------------------------ as of the reply

  lemma {:induction false} EffectsJoin(l: Tap.Local, a: seq<Tap.Step>, b: seq<Tap.Step>)
    ensures Tap.Effects(l, a + b) == Tap.Effects(l, a) + Tap.Effects(Tap.LocalAfter(l, a), b)
  {
    if b == [] {
      assert a + b == a;
    } else {
      var init := b[..|b| - 1];
      EffectsJoin(l, a, init);
      TapStepsJoin(l, a, init);
      assert (a + b)[..|a + b| - 1] == a + init;
    }
  }

  /** Each recorded change carries the time its frame was received at. */
  ghost predicate TimedAt(steps: seq<Tap.Step>, at: int) {
    forall i :: 0 <= i < |steps| && steps[i].Received? ==> steps[i].change.at == at
  }

  lemma JoinTimed(a: seq<Tap.Step>, b: seq<Tap.Step>, at: int)
    requires TimedAt(a, at) && TimedAt(b, at)
    ensures TimedAt(a + b, at)
  {
  }

  lemma TurnIsTimed(a: Bus.Books, b: Bus.Books, t: Ticker, at: int)
    ensures TimedAt(Turn(a, b, t), at)
  {
  }

  lemma DataIsTimed(c: Conn, f: Frame, at: int, t: Ticker)
    ensures TimedAt(Applies(c, f, at, t), at)
  {
  }

  lemma StepTime(cfg: Config, w: Live, s: Timed, t: Ticker)
    requires cfg.Valid()
    ensures TimedAt(StepSeen(cfg, w, s, t), s.at)
  {
    match s.step
    case Want(_) =>
    case Regroup => TurnIsTimed(w.conn.books, OnSetGroup(cfg, w.conn).books, t, s.at);
    case Arrive(f) =>
      var mid := Tracked(w.conn, f);
      var dispatched := Dispatched(cfg, mid, f).books;
      TurnIsTimed(w.conn.books, mid.books, t, s.at);
      TurnIsTimed(mid.books, dispatched, t, s.at);
      DataIsTimed(mid, f, s.at, t);
      JoinTimed(Turn(w.conn.books, mid.books, t),
                if IsReply(f.body) then Turn(mid.books, dispatched, t) else Applies(mid, f, s.at, t), s.at);
  }

  lemma {:induction false} EffectTimes(l: Tap.Local, steps: seq<Tap.Step>, at: int)
    requires TimedAt(steps, at)
    ensures forall i :: 0 <= i < |Tap.Effects(l, steps)| ==> Tap.Effects(l, steps)[i].at == at
  {
    if steps != [] { EffectTimes(l, steps[..|steps| - 1], at); }
  }

  /** The steps before `i` were received by the reply, the others after it. */
  ghost predicate CutAt(steps: seq<Timed>, i: nat, reply: int) {
    && i <= |steps| && (forall j :: 0 <= j < i ==> steps[j].at <= reply)
    && (forall j :: i <= j < |steps| ==> steps[j].at > reply)
  }

  ghost predicate ChangesCut(events: seq<Tap.Change>, k: nat, reply: int) {
    && k <= |events| && (forall j :: 0 <= j < k ==> events[j].at <= reply)
    && (forall j :: k <= j < |events| ==> events[j].at > reply)
  }

  lemma CutGrows(a: seq<Tap.Change>, b: seq<Tap.Change>, k: nat, reply: int, at: int)
    requires ChangesCut(a, k, reply) && forall i :: 0 <= i < |b| ==> b[i].at == at
    ensures at > reply ==> ChangesCut(a + b, k, reply)
    ensures at <= reply && k == |a| ==> ChangesCut(a + b, |a + b|, reply)
  {
  }

  lemma {:induction false} EffectsCut(cfg: Config, w: Live, steps: seq<Timed>, t: Ticker, l: Tap.Local, i: nat,
                                      reply: int)
    requires cfg.Valid() && CutAt(steps, i, reply)
    ensures ChangesCut(Tap.Effects(l, Seen(cfg, w, steps, t)), |Tap.Effects(l, Seen(cfg, w, steps[..i], t))|, reply)
  {
    if steps != [] {
      var init, s := steps[..|steps| - 1], steps[|steps| - 1];
      var before, now := Seen(cfg, w, init, t), StepSeen(cfg, Gone(cfg, w, init), s, t);
      var m := Min(i, |init|);
      EffectsCut(cfg, w, init, t, l, m, reply);
      EffectsJoin(l, before, now);
      StepTime(cfg, Gone(cfg, w, init), s, t);
      EffectTimes(Tap.LocalAfter(l, before), now, s.at);
      CutGrows(Tap.Effects(l, before), Tap.Effects(Tap.LocalAfter(l, before), now),
               |Tap.Effects(l, Seen(cfg, w, init[..m], t))|, reply, s.at);
      assert init[..m] == steps[..m];
      if i == |steps| { assert init[..m] == init && steps[..i] == steps; }
    }
  }

  lemma CutIsReceived(events: seq<Tap.Change>, k: nat, reply: int, at: nat)
    requires ChangesCut(events, k, reply) && Audit.ReceivedBy(events, reply, at)
    ensures at == k
  {
    assert k < |events| ==> events[k].at > reply;
  }

  /** An audit finds the reply exact when it equals the book that the frames received by then had made, and the state
      it reports for the reply is that book. */
  lemma AuditIsAsOfTheReply(cfg: Config, w: Live, steps: seq<Timed>, t: Ticker, l: Tap.Local, max: nat, rest: Levels,
                            reply: int, i: nat, at: nat, v: Audit.Verdict)
    requires cfg.Valid() && Opens(w, t, l) && CutAt(steps, i, reply)
    requires var win := WindowOn(cfg, w, steps, t, l, max);
             win.fault.None? && win.start.Some? && Audit.ReceivedBy(win.events, reply, at)
             && Audit.IsVerdict(win, rest, at, v)
    ensures var books := Gone(cfg, w, steps[..i]).conn.books;
            && (v.outcome.Exact? <==> HasLevels(books, t, rest))
            && t in books && v.replyState == Some(Tap.ImageOf(books[t].levels))
  {
    var seen := Seen(cfg, w, steps, t);
    Tap.WindowReplaysTheBook(t, l, seen, max, 0);
    EffectsCut(cfg, w, steps, t, l, i, reply);
    CutIsReceived(Tap.Effects(l, seen), |Tap.Effects(l, Seen(cfg, w, steps[..i], t))|, reply, at);
    var k := BookIsInWindow(cfg, w, steps, t, l, max, i);
  }
}
