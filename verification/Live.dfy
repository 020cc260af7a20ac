/** One live session as a value: what the hub offers it, what its bounded queue does with that, and
    what a client that reads everything believes: `src/tape/api/hub.py`, `src/tape/api/session.py`. */
module Live {
  import opened Prelude
  import opened OrderBook
  import opened Bus

  datatype Rejection = UnknownTicker(ticker: Ticker) | TooManyTickers(ticker: Ticker)

  datatype Message =
    | Hello
    | Subscribed(tickers: seq<Ticker>, rejected: seq<Rejection>)
    | Error
    | Snapshot(ticker: Ticker, stale: bool, bids: seq<Level>, asks: seq<Level>)
    | Delta(ticker: Ticker, side: Side, price: Price, delta: int)
    | WentStale(ticker: Ticker)                // `book` with `stale`
    | Resync(ticker: Ticker, lagged: bool)
    | Print(ticker: Ticker)
  {
    predicate IsReply() { Subscribed? || Error? }
    predicate IsMarket() { Snapshot? || Delta? || WentStale? || Resync? || Print? }
  }

  const LAG_LIMIT := 3
  const LAG_WINDOW_NS := 60 * 1_000_000_000

  datatype Session = Session(subs: seq<Ticker>, queue: seq<Message>, lags: seq<int>, closed: bool, gone: bool)
  {
    predicate Open() { !closed && !gone }
  }

  // ------------------------------------------------------------------ the bounded queue

  function Replies(messages: seq<Message>): seq<Message> {
    if messages == [] then [] else
      Replies(messages[..|messages| - 1]) +
      (if messages[|messages| - 1].IsReply() then [messages[|messages| - 1]] else [])
  }

  /** The lags still inside the window that ends now. */
  function Recent(lags: seq<int>, nowNs: int): seq<int> {
    if lags != [] && nowNs - lags[0] >= LAG_WINDOW_NS then Recent(lags[1..], nowNs) else lags
  }

  ghost function SnapshotOf(books: Books, t: Ticker): Message
    requires t in books
  {
    Snapshot(t, books[t].stale, BestFirst(books[t].levels.bids, Bid), BestFirst(books[t].levels.asks, Ask))
  }

  ghost function SnapshotIfHeld(books: Books, t: Ticker): seq<Message> {
    if t in books then [SnapshotOf(books, t)] else []
  }

  ghost function Resyncs(subs: seq<Ticker>, books: Books): seq<Message> {
    if subs == [] then [] else
      var t := subs[|subs| - 1];
      Resyncs(subs[..|subs| - 1], books) + [Resync(t, true)] + SnapshotIfHeld(books, t)
  }

  ghost predicate Lags(s: Session, messages: seq<Message>, queueMax: nat) {
    s.Open() && messages != [] && |s.queue| + |messages| > queueMax
  }

  ghost function Offered(s: Session, messages: seq<Message>, books: Books, nowNs: int, queueMax: nat): Session {
    if !s.Open() || messages == [] then s
    else if |s.queue| + |messages| <= queueMax then s.(queue := s.queue + messages)
    else
      var lags := Recent(s.lags + [nowNs], nowNs);
      if |lags| >= LAG_LIMIT then s.(lags := lags, closed := true, queue := [])
      else s.(lags := lags, queue := Replies(messages) + Resyncs(s.subs, books))
  }

  lemma {:induction false} ResyncsAreShort(subs: seq<Ticker>, books: Books)
    ensures |Resyncs(subs, books)| <= 2 * |subs|
  {
    if subs != [] { ResyncsAreShort(subs[..|subs| - 1], books); }
  }

  /** The queue never outgrows its bound, except for the resynchronization that replaces a backlog. */
  lemma QueueStaysBounded(s: Session, messages: seq<Message>, books: Books, nowNs: int, queueMax: nat)
    ensures var n := Offered(s, messages, books, nowNs, queueMax);
            if Lags(s, messages, queueMax) then |n.queue| <= |Replies(messages)| + 2 * |s.subs|
            else |n.queue| <= queueMax || n == s
  {
    ResyncsAreShort(s.subs, books);
  }

  // ------------------------------------------------------------------ the client of the protocol

  /** What a client shows after one message; the documented meaning of each message type. */
  ghost function Read(shown: Books, m: Message): Books {
    match m
    case Subscribed(tickers, _) => map t | t in shown && t in tickers :: shown[t]
    case Snapshot(t, stale, bids, asks) => shown[t := BookState(Levels(MapOf(bids), MapOf(asks)), stale)]
    case Delta(t, side, price, delta) =>
      if t !in shown || shown[t].stale then shown
      else if CountAt(SideOf(shown[t].levels, side), price) + delta < 0 then shown - {t}
      else shown[t := BookState(Moved(shown[t].levels, side, price, delta), false)]
    case WentStale(t) => if t in shown then shown[t := shown[t].(stale := true)] else shown
    case Resync(t, _) => shown - {t}
    case _ => shown
  }

  ghost function ReadAll(shown: Books, queue: seq<Message>): Books {
    if queue == [] then shown else Read(ReadAll(shown, queue[..|queue| - 1]), queue[|queue| - 1])
  }

  lemma {:induction false} ReadAppend(shown: Books, a: seq<Message>, b: seq<Message>)
    ensures ReadAll(shown, a + b) == ReadAll(ReadAll(shown, a), b)
  {
    if b == [] {
      assert a + b == a;
    } else {
      ReadAppend(shown, a, b[..|b| - 1]);
      assert (a + b)[..|a + b| - 1] == a + b[..|b| - 1];
    }
  }

  lemma ReadOne(shown: Books, m: Message)
    ensures ReadAll(shown, [m]) == Read(shown, m)
  {
    assert [m][..0] == [];
  }

  /** The client shows what the hub holds: same status, and same levels when that is fresh. */
  ghost predicate AgreesAt(shown: Books, held: Books, t: Ticker) {
    && (t in shown <==> t in held)
    && (t in held ==> shown[t].stale == held[t].stale)
    && (t in held && !held[t].stale ==> shown[t].levels == held[t].levels)
  }

  ghost predicate Agrees(shown: Books, held: Books, subs: seq<Ticker>) {
    forall t :: t in subs ==> AgreesAt(shown, held, t)
  }

  /** The client shows nothing it does not follow. */
  ghost predicate Tidy(shown: Books, subs: seq<Ticker>) {
    forall t :: t in shown ==> t in subs
  }

  lemma ReadSnapshot(shown: Books, held: Books, t: Ticker)
    requires t in held && held[t].WellFormed()
    ensures Read(shown, SnapshotOf(held, t)) == shown[t := held[t]]
  {
    ListingIsValid(held[t].levels.bids, Bid);
    ListingIsValid(held[t].levels.asks, Ask);
  }

  lemma ReadIfHeld(shown: Books, held: Books, t: Ticker)
    requires AllWellFormed(held)
    ensures ReadAll(shown, SnapshotIfHeld(held, t)) == if t in held then shown[t := held[t]] else shown
  {
    if t in held {
      ReadSnapshot(shown, held, t);
      ReadOne(shown, SnapshotOf(held, t));
    }
  }

  // ------------------------------------------------------------------ what one bus message means

  ghost function ChangeMessage(c: StatusChange, held: Books): seq<Message> {
    if c.after == Unknown then [Resync(c.ticker, false)]
    else if c.before == Unknown || c.after == Fresh then SnapshotIfHeld(held, c.ticker)
    else [WentStale(c.ticker)]
  }

  ghost function ChangeMessages(changes: seq<StatusChange>, held: Books): seq<Message> {
    if changes == [] then [] else
      ChangeMessages(changes[..|changes| - 1], held) + ChangeMessage(changes[|changes| - 1], held)
  }

  /** Whether some change already sent a market's snapshot. */
  ghost predicate Snapshotted(changes: seq<StatusChange>, held: Books, t: Ticker) {
    if changes == [] then false else
      var c := changes[|changes| - 1];
      || Snapshotted(changes[..|changes| - 1], held, t)
      || (c.ticker == t && c.after != Unknown && (c.before == Unknown || c.after == Fresh) && t in held)
  }

  ghost function EventMessage(e: Event, applied: bool, snapshotted: bool, held: Books): seq<Message> {
    match e
    case MarketPrint(t) => [Print(t)]
    case BookDelta(t, _, side, price, delta) => if applied then [Delta(t, side, price, delta)] else []
    case BookSnapshot(t, _, _, _) => if applied && !snapshotted then SnapshotIfHeld(held, t) else []
    case _ => []
  }

  /** Everything one bus message means, for all markets, in the order it is offered. */
  ghost function Batch(f: Follower, e: Envelope): seq<Message> {
    var held := Observed(f, e).books;
    ChangeMessages(ChangesBy(f, e), held) +
    EventMessage(e.event, AppliedTo(Held(f, e), e.event), e.event.IsBook()
        && Snapshotted(ChangesBy(f, e), held, e.event.ticker), held)
  }

  ghost function ForSession(batch: seq<Message>, subs: seq<Ticker>): seq<Message> {
    if batch == [] then [] else
      var m := batch[|batch| - 1];
      ForSession(batch[..|batch| - 1], subs) + (if m.IsMarket() && m.ticker in subs then [m] else [])
  }

  lemma {:induction false} ForSessionAppend(a: seq<Message>, b: seq<Message>, subs: seq<Ticker>)
    ensures ForSession(a + b, subs) == ForSession(a, subs) + ForSession(b, subs)
  {
    if b == [] {
      assert a + b == a;
    } else {
      ForSessionAppend(a, b[..|b| - 1], subs);
      assert (a + b)[..|a + b| - 1] == a + b[..|b| - 1];
    }
  }

  lemma ForSessionOne(m: Message, subs: seq<Ticker>)
    ensures ForSession([m], subs) == if m.IsMarket() && m.ticker in subs then [m] else []
  {
    assert [m][..0] == [];
  }

  /** A message about one market leaves the others as they were shown. */
  lemma ReadElsewhere(shown: Books, m: Message, t: Ticker)
    requires m.IsMarket() && m.ticker != t
    ensures t in Read(shown, m) <==> t in shown
    ensures t in shown ==> Read(shown, m)[t] == shown[t]
  {
  }

  lemma ReadNext(shown: Books, a: seq<Message>, m: Message, subs: seq<Ticker>)
    ensures ReadAll(shown, ForSession(a + [m], subs)) ==
            var mid := ReadAll(shown, ForSession(a, subs));
            if m.IsMarket() && m.ticker in subs then Read(mid, m) else mid
  {
    ForSessionAppend(a, [m], subs);
    ForSessionOne(m, subs);
    var mid := ReadAll(shown, ForSession(a, subs));
    ReadAppend(shown, ForSession(a, subs), ForSession([m], subs));
    ReadOne(mid, m);
  }

  function LossNotices(keys: seq<Ticker>): seq<Message> {
    if keys == [] then [] else LossNotices(keys[..|keys| - 1]) + [Resync(keys[|keys| - 1], false)]
  }

  lemma {:induction false} DropsAreLossNotices(keys: seq<Ticker>, was: Books, held: Books)
    ensures ChangeMessages(DropChanges(keys, was), held) == LossNotices(keys)
  {
    if keys != [] {
      var drops := DropChanges(keys, was);
      DropsAreLossNotices(keys[..|keys| - 1], was, held);
      assert drops[..|drops| - 1] == DropChanges(keys[..|keys| - 1], was);
    }
  }

  lemma ReadLoss(shown: Books, k: Ticker, lagged: bool)
    ensures Read(shown, Resync(k, lagged)) == shown - {k}
  {
  }

  lemma ReadStale(shown: Books, k: Ticker)
    requires k in shown
    ensures Read(shown, WentStale(k)) == shown[k := shown[k].(stale := true)]
  {
  }

  lemma ReadNextLoss(shown: Books, a: seq<Message>, k: Ticker, subs: seq<Ticker>)
    ensures ReadAll(shown, ForSession(a + [Resync(k, false)], subs)) ==
            var mid := ReadAll(shown, ForSession(a, subs));
            if k in subs then mid - {k} else mid
  {
    ReadNext(shown, a, Resync(k, false), subs);
    ReadLoss(ReadAll(shown, ForSession(a, subs)), k, false);
  }

  lemma {:induction false} LossReachesClient(keys: seq<Ticker>, shown: Books, subs: seq<Ticker>, t: Ticker)
    requires t in subs
    ensures t in ReadAll(shown, ForSession(LossNotices(keys), subs)) <==> t in shown && t !in keys
    ensures t in ReadAll(shown, ForSession(LossNotices(keys), subs)) ==>
            ReadAll(shown, ForSession(LossNotices(keys), subs))[t] == shown[t]
  {
    if keys != [] {
      var init, k := keys[..|keys| - 1], keys[|keys| - 1];
      LossReachesClient(init, shown, subs, t);
      ReadNextLoss(shown, LossNotices(init), k, subs);
      assert t in keys <==> t in init || t == k by { assert keys == init + [k]; }
    }
  }

  /** The messages of the event itself, once any reset has been read. */
  ghost function EventPart(held: Books, e: Event): seq<Message> {
    var after := AfterEvent(held, e);
    ChangeMessages(EventChanges(held, e), after) +
    EventMessage(e, AppliedTo(held, e), e.IsBook() && Snapshotted(EventChanges(held, e), after, e.ticker), after)
  }

  lemma ChangeMessagesSnoc(a: seq<StatusChange>, c: StatusChange, held: Books)
    ensures ChangeMessages(a + [c], held) == ChangeMessages(a, held) + ChangeMessage(c, held)
  {
    assert (a + [c])[..|a|] == a;
  }

  lemma {:induction false} ChangeMessagesAppend(a: seq<StatusChange>, b: seq<StatusChange>, held: Books)
    ensures ChangeMessages(a + b, held) == ChangeMessages(a, held) + ChangeMessages(b, held)
  {
    if b == [] {
      assert a + b == a;
    } else {
      var init, c := b[..|b| - 1], b[|b| - 1];
      ChangeMessagesAppend(a, init, held);
      assert a + b == (a + init) + [c] && b == init + [c];
      ChangeMessagesSnoc(a + init, c, held);
      ChangeMessagesSnoc(init, c, held);
      Join(ChangeMessages(a, held), ChangeMessages(init, held), ChangeMessage(c, held));
    }
  }

  lemma {:induction false} SnapshottedAppend(a: seq<StatusChange>, b: seq<StatusChange>, held: Books, t: Ticker)
    ensures Snapshotted(a + b, held, t) == (Snapshotted(a, held, t) || Snapshotted(b, held, t))
  {
    if b == [] {
      assert a + b == a;
    } else {
      SnapshottedAppend(a, b[..|b| - 1], held, t);
      assert (a + b)[..|a + b| - 1] == a + b[..|b| - 1];
    }
  }

  lemma {:induction false} DropsNeverSnapshot(keys: seq<Ticker>, was: Books, held: Books, t: Ticker)
    ensures !Snapshotted(DropChanges(keys, was), held, t)
  {
    if keys != [] {
      DropsNeverSnapshot(keys[..|keys| - 1], was, held, t);
      var drops := DropChanges(keys, was);
      assert drops[..|drops| - 1] == DropChanges(keys[..|keys| - 1], was);
    }
  }

  ghost function ResetDrops(f: Follower, e: Envelope): seq<StatusChange> {
    if ResetBy(f, e).Some? then DropChanges(Sorted(f.books.Keys), f.books) else []
  }

  lemma BatchSplits(f: Follower, e: Envelope)
    ensures Batch(f, e) == ChangeMessages(ResetDrops(f, e), Observed(f, e).books) + EventPart(Held(f, e), e.event)
  {
    var tail := EventChanges(Held(f, e), e.event);
    var t := if e.event.IsBook() then e.event.ticker else Key(0);
    ChangeMessagesAppend(ResetDrops(f, e), tail, Observed(f, e).books);
    SnapshottedAppend(ResetDrops(f, e), tail, Observed(f, e).books, t);
    DropsNeverSnapshot(Sorted(f.books.Keys), f.books, Observed(f, e).books, t);
  }

  /** The message of one status change, from any status to any other. */
  lemma ChangeReachesClient(shown: Books, after: Books, c: StatusChange)
    requires AllWellFormed(after) && c.before != c.after && c.after == StatusIn(after, c.ticker)
    requires c.before == StatusIn(shown, c.ticker)
    ensures AgreesAt(ReadAll(shown, ChangeMessage(c, after)), after, c.ticker)
  {
    var t := c.ticker;
    if c.after == Unknown {
      ReadOne(shown, Resync(t, false));
      ReadLoss(shown, t, false);
    } else if c.before == Unknown || c.after == Fresh {
      ReadIfHeld(shown, after, t);
    } else {
      ReadOne(shown, WentStale(t));
      ReadStale(shown, t);
    }
  }

  lemma ChangedBookReachesClient(shown: Books, held: Books, e: Event)
    requires e.IsBook() && AllWellFormed(AfterEvent(held, e))
    requires AgreesAt(shown, held, e.ticker) && StatusIn(held, e.ticker) != StatusIn(AfterEvent(held, e), e.ticker)
    ensures AgreesAt(ReadAll(shown, ChangeMessages(EventChanges(held, e), AfterEvent(held, e))), AfterEvent(held, e),
            e.ticker)
  {
    var t, after := e.ticker, AfterEvent(held, e);
    var c := StatusChange(t, StatusIn(held, t), StatusIn(after, t));
    ChangesOfOne(c, after);
    ChangeReachesClient(shown, after, c);
  }

  lemma ChangedBookSaysNoMore(held: Books, e: Event)
    requires e.IsBook() && StatusIn(held, e.ticker) != StatusIn(AfterEvent(held, e), e.ticker)
    ensures EventPart(held, e) == ChangeMessages(EventChanges(held, e), AfterEvent(held, e))
  {
    var t, after := e.ticker, AfterEvent(held, e);
    var tail := EventChanges(held, e);
    assert tail[..0] == [];
    match e
    case BookDelta(_, _, side, price, delta) =>
    case BookSnapshot(_, _, bids, asks) =>
      if AppliedTo(held, e) {
        assert StatusIn(after, t) == Fresh;
        assert Snapshotted(tail, after, t);
      }
    case _ =>
  }

  /** An applied delta moves one level of a fresh book that stays fresh. */
  lemma AppliedDelta(b: BookState, side: Side, price: Price, delta: int)
    requires DeltaVerdict(b, side, price, delta) == Applied
    ensures !b.stale && CountAt(SideOf(b.levels, side), price) + delta >= 0
    ensures AfterDelta(b, side, price, delta) == BookState(Moved(b.levels, side, price, delta), false)
  {
  }

  lemma RefusedDelta(b: BookState, side: Side, price: Price, delta: int)
    requires DeltaVerdict(b, side, price, delta) == Ignored
    ensures b.stale && AfterDelta(b, side, price, delta) == b
  {
  }

  lemma DeltaOutcomes(held: Books, e: Event)
    requires e.BookDelta? && StatusIn(held, e.ticker) == StatusIn(AfterEvent(held, e), e.ticker)
    ensures AppliedTo(held, e) ==> e.ticker in held && DeltaVerdict(held[e.ticker], e.side, e.price, e.delta) == Applied
    ensures AppliedTo(held, e) ==>
            e.ticker in AfterEvent(held, e)
            && AfterEvent(held, e)[e.ticker] == AfterDelta(held[e.ticker], e.side, e.price, e.delta)
    ensures !AppliedTo(held, e) ==> AfterEvent(held, e) == held
  {
    if e.ticker in held {
      match DeltaVerdict(held[e.ticker], e.side, e.price, e.delta)
      case Applied =>
      case Ignored => RefusedDelta(held[e.ticker], e.side, e.price, e.delta);
      case Broken =>
    }
  }

  lemma SteadyDeltaMeans(held: Books, e: Event)
    requires e.BookDelta? && StatusIn(held, e.ticker) == StatusIn(AfterEvent(held, e), e.ticker)
    ensures EventPart(held, e) == if AppliedTo(held, e) then [Delta(e.ticker, e.side, e.price, e.delta)] else []
  {
    assert EventChanges(held, e) == [];
  }

  lemma ReadDelta(shown: Books, b: BookState, m: Message)
    requires m.Delta? && m.ticker in shown && !b.stale && shown[m.ticker] == b
             && CountAt(SideOf(b.levels, m.side), m.price) + m.delta >= 0
    ensures Read(shown, m) == shown[m.ticker := BookState(Moved(b.levels, m.side, m.price, m.delta), false)]
  {
  }

  lemma SteadyDeltaReachesClient(shown: Books, held: Books, e: Event)
    requires e.BookDelta?
    requires AgreesAt(shown, held, e.ticker) && StatusIn(held, e.ticker) == StatusIn(AfterEvent(held, e), e.ticker)
    ensures AgreesAt(ReadAll(shown, EventPart(held, e)), AfterEvent(held, e), e.ticker)
  {
    var t := e.ticker;
    SteadyDeltaMeans(held, e);
    DeltaOutcomes(held, e);
    if AppliedTo(held, e) {
      var m := Delta(t, e.side, e.price, e.delta);
      AppliedDelta(held[t], e.side, e.price, e.delta);
      ReadOne(shown, m);
      ReadDelta(shown, held[t], m);
    }
  }

  lemma SteadySnapshotReachesClient(shown: Books, held: Books, e: Event)
    requires e.BookSnapshot? && AllWellFormed(AfterEvent(held, e))
    requires AgreesAt(shown, held, e.ticker) && StatusIn(held, e.ticker) == StatusIn(AfterEvent(held, e), e.ticker)
    ensures AgreesAt(ReadAll(shown, EventPart(held, e)), AfterEvent(held, e), e.ticker)
  {
    var t, after := e.ticker, AfterEvent(held, e);
    assert EventChanges(held, e) == [] && !Snapshotted([], after, t);
    if AppliedTo(held, e) {
      assert EventPart(held, e) == SnapshotIfHeld(after, t);
      ReadIfHeld(shown, after, t);
    } else {
      assert EventPart(held, e) == [];
    }
  }

  lemma SteadyRefreshReachesClient(shown: Books, held: Books, e: Event)
    requires e.BookRefresh?
    requires AgreesAt(shown, held, e.ticker) && StatusIn(held, e.ticker) == StatusIn(AfterEvent(held, e), e.ticker)
    requires !e.stale && FreshIn(held, e.ticker) ==> AfterEvent(held, e) == held
    ensures AgreesAt(ReadAll(shown, EventPart(held, e)), AfterEvent(held, e), e.ticker)
  {
    assert EventChanges(held, e) == [];
    assert EventPart(held, e) == [];
  }

  /** Read after any reset, the event's messages bring the client's copy of its market up to date. */
  lemma EventReachesClient(shown: Books, held: Books, e: Event)
    requires e.IsBook() && AllWellFormed(held) && AllWellFormed(AfterEvent(held, e))
    requires AgreesAt(shown, held, e.ticker)
    requires e.BookRefresh? && !e.stale && FreshIn(held, e.ticker) ==> AfterEvent(held, e) == held
    ensures AgreesAt(ReadAll(shown, EventPart(held, e)), AfterEvent(held, e), e.ticker)
  {
    if StatusIn(held, e.ticker) != StatusIn(AfterEvent(held, e), e.ticker) {
      ChangedBookReachesClient(shown, held, e);
      ChangedBookSaysNoMore(held, e);
    } else {
      match e
      case BookDelta(_, _, _, _, _) => SteadyDeltaReachesClient(shown, held, e);
      case BookSnapshot(_, _, _, _) => SteadySnapshotReachesClient(shown, held, e);
      case BookRefresh(_, _, _, _, _) => SteadyRefreshReachesClient(shown, held, e);
    }
  }

  ghost predicate About(q: seq<Message>, t: Ticker) {
    forall i :: 0 <= i < |q| ==> q[i].IsMarket() && q[i].ticker == t
  }

  ghost predicate Within(q: seq<Message>, subs: seq<Ticker>) {
    forall i :: 0 <= i < |q| ==> q[i].IsMarket() && q[i].ticker in subs
  }

  lemma {:induction false} ForSessionIsWithin(q: seq<Message>, subs: seq<Ticker>)
    ensures Within(ForSession(q, subs), subs)
  {
    if q != [] { ForSessionIsWithin(q[..|q| - 1], subs); }
  }

  lemma {:induction false} ForSessionOfOne(q: seq<Message>, subs: seq<Ticker>, t: Ticker)
    requires About(q, t)
    ensures ForSession(q, subs) == if t in subs then q else []
  {
    if q != [] {
      ForSessionOfOne(q[..|q| - 1], subs, t);
      assert q == q[..|q| - 1] + [q[|q| - 1]];
    }
  }

  lemma {:induction false} ReadAboutOther(shown: Books, q: seq<Message>, u: Ticker, t: Ticker)
    requires About(q, u) && u != t
    ensures t in ReadAll(shown, q) <==> t in shown
    ensures t in shown ==> ReadAll(shown, q)[t] == shown[t]
  {
    if q != [] {
      ReadAboutOther(shown, q[..|q| - 1], u, t);
      ReadElsewhere(ReadAll(shown, q[..|q| - 1]), q[|q| - 1], t);
    }
  }

  lemma {:induction false} ReadKeepsTidy(shown: Books, q: seq<Message>, subs: seq<Ticker>)
    requires Tidy(shown, subs) && Within(q, subs)
    ensures Tidy(ReadAll(shown, q), subs)
  {
    if q != [] {
      ReadKeepsTidy(shown, q[..|q| - 1], subs);
      var mid, m := ReadAll(shown, q[..|q| - 1]), q[|q| - 1];
      forall t | t in Read(mid, m) ensures t in subs {
        if t != m.ticker { ReadElsewhere(mid, m, t); }
      }
    }
  }

  lemma EventPartIsAbout(held: Books, e: Event)
    ensures e.IsBook() || e.MarketPrint? ==> About(EventPart(held, e), e.ticker)
    ensures !e.IsBook() && !e.MarketPrint? ==> EventPart(held, e) == []
  {
    var after, tail := AfterEvent(held, e), EventChanges(held, e);
    if tail != [] {
      ChangesOfOne(tail[0], after);
    }
  }

  lemma ChangesOfOne(c: StatusChange, held: Books)
    ensures ChangeMessages([c], held) == ChangeMessage(c, held) && About(ChangeMessages([c], held), c.ticker)
  {
    assert [c][..0] == [];
  }

  lemma ResetReachesClient(shown: Books, f: Follower, e: Envelope, subs: seq<Ticker>, t: Ticker)
    requires t in subs && AgreesAt(shown, f.books, t)
    ensures AgreesAt(ReadAll(shown, ForSession(ChangeMessages(ResetDrops(f, e), Observed(f, e).books), subs)),
            Held(f, e), t)
  {
    if ResetBy(f, e).Some? {
      var keys := Sorted(f.books.Keys);
      DropsAreLossNotices(keys, f.books, Observed(f, e).books);
      LossReachesClient(keys, shown, subs, t);
      assert t in keys <==> t in f.books.Keys;
    }
  }

  /** One bus message, read to the end of what it sends a session, leaves the client agreeing with the hub about
      a market the session follows if it agreed before. */
  lemma BatchReachesOne(shown: Books, f: Follower, e: Envelope, subs: seq<Ticker>, t: Ticker)
    requires AllWellFormed(f.books) && RefreshAgrees(f, e) && t in subs && AgreesAt(shown, f.books, t)
    ensures AgreesAt(ReadAll(shown, ForSession(Batch(f, e), subs)), Observed(f, e).books, t)
  {
    var mid := ReadAll(shown, ForSession(ChangeMessages(ResetDrops(f, e), Observed(f, e).books), subs));
    BatchIsTwoParts(shown, f, e, subs);
    ObservedIsWellFormed(f, e);
    ResetReachesClient(shown, f, e, subs, t);
    EventPartReaches(mid, Held(f, e), e.event, subs, t);
  }

  lemma BatchIsTwoParts(shown: Books, f: Follower, e: Envelope, subs: seq<Ticker>)
    ensures ReadAll(shown, ForSession(Batch(f, e), subs)) ==
            ReadAll(ReadAll(shown, ForSession(ChangeMessages(ResetDrops(f, e), Observed(f, e).books), subs)),
                ForSession(EventPart(Held(f, e), e.event), subs))
  {
    var lost, part := ChangeMessages(ResetDrops(f, e), Observed(f, e).books), EventPart(Held(f, e), e.event);
    BatchSplits(f, e);
    ForSessionAppend(lost, part, subs);
    ReadAppend(shown, ForSession(lost, subs), ForSession(part, subs));
  }

  /** A followed market the hub holds no book of keeps what it shows until the hub holds one again; then the
      client agrees, whatever it showed. */
  lemma BatchFindsOne(shown: Books, f: Follower, e: Envelope, subs: seq<Ticker>, t: Ticker)
    requires AllWellFormed(f.books) && t in subs && t !in f.books
    ensures var now := ReadAll(shown, ForSession(Batch(f, e), subs));
            if t in Observed(f, e).books then AgreesAt(now, Observed(f, e).books, t) else t in now <==> t in shown
  {
    var mid := ReadAll(shown, ForSession(ChangeMessages(ResetDrops(f, e), Observed(f, e).books), subs));
    BatchIsTwoParts(shown, f, e, subs);
    ObservedIsWellFormed(f, e);
    if ResetBy(f, e).Some? {
      DropsAreLossNotices(Sorted(f.books.Keys), f.books, Observed(f, e).books);
      LossReachesClient(Sorted(f.books.Keys), shown, subs, t);
    }
    EventPartFinds(mid, Held(f, e), e.event, subs, t);
  }

  lemma EventPartFinds(mid: Books, held: Books, e: Event, subs: seq<Ticker>, t: Ticker)
    requires t in subs && t !in held && AllWellFormed(AfterEvent(held, e))
    ensures var now := ReadAll(mid, ForSession(EventPart(held, e), subs));
            if t in AfterEvent(held, e) then AgreesAt(now, AfterEvent(held, e), t) else t in now <==> t in mid
  {
    var part := EventPart(held, e);
    EventPartIsAbout(held, e);
    if e.IsBook() || e.MarketPrint? {
      ForSessionOfOne(part, subs, e.ticker);
      if e.ticker != t {
        if e.ticker in subs { ReadAboutOther(mid, part, e.ticker, t); }
      } else if e.IsBook() {
        NewBookReaches(mid, held, e);
      } else {
        assert part == [Print(t)];
        ReadOne(mid, Print(t));
      }
    }
  }

  /** Only an image makes a book known; that sends its snapshot, and nothing else sends anything. */
  lemma UnknownBookMeans(held: Books, e: Event)
    requires e.IsBook() && e.ticker !in held
    ensures EventPart(held, e) == SnapshotIfHeld(AfterEvent(held, e), e.ticker)
  {
    var t, after := e.ticker, AfterEvent(held, e);
    if e.BookRefresh? && t in after {
      var c := StatusChange(t, Unknown, StatusIn(after, t));
      assert EventChanges(held, e) == [c];
      ChangesOfOne(c, after);
      assert ChangeMessage(c, after) + [] == ChangeMessage(c, after);
    } else {
      assert EventChanges(held, e) == [] && !AppliedTo(held, e);
    }
  }

  lemma NewBookReaches(mid: Books, held: Books, e: Event)
    requires e.IsBook() && e.ticker !in held && AllWellFormed(AfterEvent(held, e))
    ensures var now := ReadAll(mid, EventPart(held, e));
            if e.ticker in AfterEvent(held, e) then AgreesAt(now, AfterEvent(held, e), e.ticker) else now == mid
  {
    UnknownBookMeans(held, e);
    ReadIfHeld(mid, AfterEvent(held, e), e.ticker);
  }

  /** One bus message, read to the end of what it sends a session, leaves the client agreeing with
      the hub about every market the session follows. */
  lemma BatchReachesClient(shown: Books, f: Follower, e: Envelope, subs: seq<Ticker>)
    requires AllWellFormed(f.books) && Agrees(shown, f.books, subs) && RefreshAgrees(f, e)
    ensures Agrees(ReadAll(shown, ForSession(Batch(f, e), subs)), Observed(f, e).books, subs)
  {
    forall t | t in subs ensures AgreesAt(ReadAll(shown, ForSession(Batch(f, e), subs)), Observed(f, e).books, t) {
      BatchReachesOne(shown, f, e, subs, t);
    }
  }

  lemma BatchKeepsTidy(shown: Books, f: Follower, e: Envelope, subs: seq<Ticker>)
    requires Tidy(shown, subs)
    ensures Tidy(ReadAll(shown, ForSession(Batch(f, e), subs)), subs)
  {
    ForSessionIsWithin(Batch(f, e), subs);
    ReadKeepsTidy(shown, ForSession(Batch(f, e), subs), subs);
  }

  lemma EventPartReaches(mid: Books, held: Books, e: Event, subs: seq<Ticker>, t: Ticker)
    requires t in subs && AgreesAt(mid, held, t)
    requires AllWellFormed(held) && AllWellFormed(AfterEvent(held, e))
    requires e.BookRefresh? && !e.stale && FreshIn(held, e.ticker) ==> AfterEvent(held, e) == held
    ensures AgreesAt(ReadAll(mid, ForSession(EventPart(held, e), subs)), AfterEvent(held, e), t)
  {
    var part := EventPart(held, e);
    EventPartIsAbout(held, e);
    if e.IsBook() || e.MarketPrint? {
      ForSessionOfOne(part, subs, e.ticker);
      if e.ticker != t {
        if e.ticker in subs { ReadAboutOther(mid, part, e.ticker, t); }
      } else if e.IsBook() {
        EventReachesClient(mid, held, e);
      } else {
        assert part == [Print(t)];
        ReadOne(mid, Print(t));
      }
    }
  }

  // ------------------------------------------------------------------ what a follower is told

  /** A snapshot message shows a book: its status, and all levels of both sides, best first. */
  ghost predicate Shows(m: Message, t: Ticker, b: BookState) {
    && m.Snapshot? && m.ticker == t && m.stale == b.stale
    && SameSide(m.bids, b.levels.bids) && SameSide(m.asks, b.levels.asks)
    && (forall i, j :: 0 <= i < j < |m.bids| ==> m.bids[i].price.rank > m.bids[j].price.rank)
    && (forall i, j :: 0 <= i < j < |m.asks| ==> m.asks[i].price.rank < m.asks[j].price.rank)
  }

  ghost predicate IsPicture(q: seq<Message>, books: Books, t: Ticker) {
    |q| == 1 && t in books && Shows(q[0], t, books[t])
  }

  /** All that a follower of `t` is told of an event that takes the hub's books from `before` to `after`. A
      market's status says it all but for what leaves a fresh book fresh. */
  ghost predicate Tells(q: seq<Message>, before: Books, e: Event, after: Books, t: Ticker) {
    if e == MarketPrint(t) then q == [Print(t)]
    else if !e.IsBook() || e.ticker != t then q == []
    else
      match (StatusIn(before, t), StatusIn(after, t))
      case (Unknown, Unknown) => q == []
      case (_, Unknown) => q == [Resync(t, false)]
      case (Stale, Stale) => q == []
      case (Fresh, Stale) => q == [WentStale(t)]
      case (Fresh, Fresh) =>
        (match e
         case BookDelta(_, _, side, price, delta) => q == [Delta(t, side, price, delta)]
         case BookSnapshot(_, _, _, _) => IsPicture(q, after, t)
         case _ => q == [])
      case _ => IsPicture(q, after, t)
  }

  /** The messages about one market, of those a session is sent. */
  ghost function Of(q: seq<Message>, t: Ticker): seq<Message> {
    ForSession(q, [t])
  }

  lemma SnapshotShows(books: Books, t: Ticker)
    requires t in books
    ensures IsPicture(SnapshotIfHeld(books, t), books, t)
  {
    ListingIsBestFirst(books[t].levels.bids, Bid);
    ListingIsBestFirst(books[t].levels.asks, Ask);
    SameSideOf(books[t].levels.bids, Bid);
    SameSideOf(books[t].levels.asks, Ask);
  }

  lemma SameSideOf(m: map<Price, int>, side: Side)
    ensures SameSide(BestFirst(m, side), m)
  {
    ListingIsBestFirst(m, side);
    forall p | p in m ensures Level(p, m[p]) in BestFirst(m, side) {
    }
  }

  lemma {:induction false} OfOne(q: seq<Message>, subs: seq<Ticker>, t: Ticker)
    ensures Of(ForSession(q, subs), t) == if t in subs then Of(q, t) else []
  {
    if q != [] {
      var init, m := q[..|q| - 1], q[|q| - 1];
      OfOne(init, subs, t);
      assert q == init + [m];
      ForSessionAppend(init, [m], subs);
      ForSessionAppend(init, [m], [t]);
      ForSessionOne(m, subs);
      ForSessionOne(m, [t]);
      ForSessionAppend(ForSession(init, subs), ForSession([m], subs), [t]);
    }
  }

  lemma {:induction false} LossToldOnce(keys: seq<Ticker>, t: Ticker)
    requires Ascending(keys)
    ensures Of(LossNotices(keys), t) == if t in keys then [Resync(t, false)] else []
  {
    if keys != [] {
      var init, k := keys[..|keys| - 1], keys[|keys| - 1];
      LossToldOnce(init, t);
      assert keys == init + [k];
      assert k !in init;
      ForSessionAppend(LossNotices(init), [Resync(k, false)], [t]);
      ForSessionOne(Resync(k, false), [t]);
    }
  }

  lemma SteadyEventTells(held: Books, e: Event)
    requires e.IsBook() && AllWellFormed(held)
    requires StatusIn(held, e.ticker) == StatusIn(AfterEvent(held, e), e.ticker)
    ensures Tells(EventPart(held, e), held, e, AfterEvent(held, e), e.ticker)
  {
    var t, after := e.ticker, AfterEvent(held, e);
    assert EventChanges(held, e) == [] && !Snapshotted([], after, t);
    match e
    case BookDelta(_, _, _, _, _) =>
      SteadyDeltaMeans(held, e);
      DeltaOutcomes(held, e);
    case BookSnapshot(_, _, bids, asks) =>
      assert EventPart(held, e) == if AppliedTo(held, e) then SnapshotIfHeld(after, t) else [];
      if t in after { SnapshotShows(after, t); }
    case BookRefresh(_, _, _, _, _) => assert EventPart(held, e) == [];
  }

  lemma ChangingEventTells(held: Books, e: Event)
    requires e.IsBook()
    requires StatusIn(held, e.ticker) != StatusIn(AfterEvent(held, e), e.ticker)
    ensures Tells(EventPart(held, e), held, e, AfterEvent(held, e), e.ticker)
  {
    var t, after := e.ticker, AfterEvent(held, e);
    ChangedBookSaysNoMore(held, e);
    ChangesOfOne(StatusChange(t, StatusIn(held, t), StatusIn(after, t)), after);
    if t in after { SnapshotShows(after, t); }
  }

  lemma EventTells(held: Books, e: Event, t: Ticker)
    requires AllWellFormed(held)
    ensures Tells(Of(EventPart(held, e), t), held, e, AfterEvent(held, e), t)
  {
    EventPartIsAbout(held, e);
    if e.IsBook() || e.MarketPrint? {
      ForSessionOfOne(EventPart(held, e), [t], e.ticker);
      if e.IsBook() && e.ticker == t {
        if StatusIn(held, t) == StatusIn(AfterEvent(held, e), t) {
          SteadyEventTells(held, e);
        } else {
          ChangingEventTells(held, e);
        }
      }
    }
  }

  /** A market lost to a reset is said to be lost; then the event is told to those it concerns. */
  ghost predicate Told1(q: seq<Message>, f: Follower, e: Envelope, t: Ticker) {
    exists rest ::
      && q == (if ResetBy(f, e).Some? && t in f.books then [Resync(t, false)] else []) + rest
      && Tells(rest, Held(f, e), e.event, Observed(f, e).books, t)
  }

  /** What one bus message tells a session, market by market: of a market it follows exactly what the hub's books
      call for, of any other nothing. */
  lemma FollowersAreTold(f: Follower, e: Envelope, subs: seq<Ticker>, t: Ticker)
    requires AllWellFormed(f.books)
    ensures var q := Of(ForSession(Batch(f, e), subs), t);
            if t in subs then Told1(q, f, e, t) else q == []
  {
    var lost, part := ChangeMessages(ResetDrops(f, e), Observed(f, e).books), EventPart(Held(f, e), e.event);
    OfOne(Batch(f, e), subs, t);
    BatchSplits(f, e);
    ForSessionAppend(lost, part, [t]);
    EventTells(Held(f, e), e.event, t);
    if ResetBy(f, e).Some? {
      DropsAreLossNotices(Sorted(f.books.Keys), f.books, Observed(f, e).books);
      LossToldOnce(Sorted(f.books.Keys), t);
      assert t in Sorted(f.books.Keys) <==> t in f.books.Keys;
    }
    assert t in subs ==> Told1(Of(Batch(f, e), t), f, e, t) by {
      assert Of(Batch(f, e), t) == Of(lost, t) + Of(part, t);
    }
  }

  /** Trades and ticker updates among the messages. */
  function Prints(q: seq<Message>): seq<Message> {
    if q == [] then [] else
      Prints(q[..|q| - 1]) + (if q[|q| - 1].Print? then [q[|q| - 1]] else [])
  }

  ghost predicate NoPrints(q: seq<Message>) {
    forall i :: 0 <= i < |q| ==> !q[i].Print?
  }

  lemma {:induction false} PrintsOfNone(q: seq<Message>)
    requires NoPrints(q)
    ensures Prints(q) == []
  {
    if q != [] { PrintsOfNone(q[..|q| - 1]); }
  }

  lemma PrintsSnoc(q: seq<Message>, m: Message)
    ensures Prints(q + [m]) == Prints(q) + (if m.Print? then [m] else [])
  {
    assert (q + [m])[..|q|] == q;
  }

  lemma {:induction false} LossPrintsNothing(keys: seq<Ticker>, subs: seq<Ticker>)
    ensures NoPrints(ForSession(LossNotices(keys), subs))
  {
    if keys != [] {
      var init, k := keys[..|keys| - 1], keys[|keys| - 1];
      LossPrintsNothing(init, subs);
      ForSessionAppend(LossNotices(init), [Resync(k, false)], subs);
      ForSessionOne(Resync(k, false), subs);
    }
  }

  lemma BookEventPrintsNothing(held: Books, e: Event)
    requires e.IsBook() && AllWellFormed(held)
    ensures NoPrints(EventPart(held, e))
  {
    if StatusIn(held, e.ticker) == StatusIn(AfterEvent(held, e), e.ticker) {
      SteadyEventTells(held, e);
    } else {
      ChangingEventTells(held, e);
    }
  }

  lemma ResetPrintsNothing(f: Follower, e: Envelope, subs: seq<Ticker>)
    ensures NoPrints(ForSession(ChangeMessages(ResetDrops(f, e), Observed(f, e).books), subs))
  {
    if ResetBy(f, e).Some? {
      DropsAreLossNotices(Sorted(f.books.Keys), f.books, Observed(f, e).books);
      LossPrintsNothing(Sorted(f.books.Keys), subs);
    }
  }

  lemma EventPrints(held: Books, e: Event, subs: seq<Ticker>)
    requires AllWellFormed(held)
    ensures var q := ForSession(EventPart(held, e), subs);
            if e.MarketPrint? && e.ticker in subs then q == [Print(e.ticker)] else NoPrints(q)
  {
    EventPartIsAbout(held, e);
    if e.IsBook() {
      ForSessionOfOne(EventPart(held, e), subs, e.ticker);
      BookEventPrintsNothing(held, e);
    } else if e.MarketPrint? {
      ForSessionOfOne(EventPart(held, e), subs, e.ticker);
      assert EventPart(held, e) == [Print(e.ticker)];
    }
  }

  /** A trade or ticker update goes to each follower of its market, once and after everything else, and nothing
      else ever looks like one. */
  lemma PrintsReachFollowers(f: Follower, e: Envelope, subs: seq<Ticker>)
    requires AllWellFormed(f.books)
    ensures var q := ForSession(Batch(f, e), subs);
            if e.event.MarketPrint? && e.event.ticker in subs
            then q != [] && q[|q| - 1] == Print(e.event.ticker) && Prints(q) == [Print(e.event.ticker)]
            else Prints(q) == []
  {
    var lost, part := ChangeMessages(ResetDrops(f, e), Observed(f, e).books), EventPart(Held(f, e), e.event);
    var before, after := ForSession(lost, subs), ForSession(part, subs);
    BatchSplits(f, e);
    ForSessionAppend(lost, part, subs);
    ResetPrintsNothing(f, e, subs);
    EventPrints(Held(f, e), e.event, subs);
    PrintsAre(before, after, e.event, subs);
  }

  lemma PrintsAre(before: seq<Message>, after: seq<Message>, e: Event, subs: seq<Ticker>)
    requires NoPrints(before)
    requires if e.MarketPrint? && e.ticker in subs then after == [Print(e.ticker)] else NoPrints(after)
    ensures Prints(before + after) == if e.MarketPrint? && e.ticker in subs then [Print(e.ticker)] else []
  {
    if e.MarketPrint? && e.ticker in subs {
      PrintsOfNone(before);
      PrintsSnoc(before, Print(e.ticker));
    } else {
      PrintsOfNone(before + after);
    }
  }

  lemma RoomQueues(s: Session, messages: seq<Message>, last: Message, books: Books, nowNs: int, queueMax: nat)
    requires s.Open() && |s.queue| + |messages| <= queueMax && messages != [] && messages[|messages| - 1] == last
    ensures var q := Offered(s, messages, books, nowNs, queueMax).queue;
            q != [] && q[|q| - 1] == last && s.queue <= q
  {
  }

  /** With room in its queue, an open session that follows the market has the print behind all it had. */
  lemma PrintIsQueued(f: Follower, e: Envelope, s: Session, books: Books, nowNs: int, queueMax: nat)
    requires AllWellFormed(f.books) && e.event.MarketPrint? && e.event.ticker in s.subs && s.Open()
    requires |s.queue| + |ForSession(Batch(f, e), s.subs)| <= queueMax
    ensures var q := Offered(s, ForSession(Batch(f, e), s.subs), books, nowNs, queueMax).queue;
            q != [] && q[|q| - 1] == Print(e.event.ticker) && s.queue <= q
  {
    PrintsReachFollowers(f, e, s.subs);
    RoomQueues(s, ForSession(Batch(f, e), s.subs), Print(e.event.ticker), books, nowNs, queueMax);
  }

  // ------------------------------------------------------------------ subscriptions

  function Dedupe(tickers: seq<Ticker>): seq<Ticker> {
    if tickers == [] then [] else
      var init, t := Dedupe(tickers[..|tickers| - 1]), tickers[|tickers| - 1];
      if t in init then init else init + [t]
  }

  /** The tickers accepted and rejected, in the client's order. */
  function Judge(tickers: seq<Ticker>, directory: set<Ticker>, maxTickers: nat): (seq<Ticker>, seq<Rejection>) {
    if tickers == [] then ([], []) else
      var (accepted, rejected) := Judge(tickers[..|tickers| - 1], directory, maxTickers);
      var t := tickers[|tickers| - 1];
      if t !in directory then (accepted, rejected + [UnknownTicker(t)])
      else if |accepted| >= maxTickers then (accepted, rejected + [TooManyTickers(t)])
      else (accepted + [t], rejected)
  }

  lemma {:induction false} JudgeIsFair(tickers: seq<Ticker>, directory: set<Ticker>, maxTickers: nat)
    requires Distinct(tickers)
    ensures var (accepted, rejected) := Judge(tickers, directory, maxTickers);
            && |accepted| <= maxTickers && |accepted| + |rejected| == |tickers|
            && Distinct(accepted) && forall t :: t in accepted ==> t in tickers && t in directory
  {
    if tickers != [] {
      var init, t := tickers[..|tickers| - 1], tickers[|tickers| - 1];
      JudgeIsFair(init, directory, maxTickers);
      var (accepted, rejected) := Judge(init, directory, maxTickers);
      assert tickers == init + [t];
      assert forall i :: 0 <= i < |init| ==> init[i] != t;
      assert t !in accepted;
    }
  }

  lemma {:induction false} DedupeIsDistinct(tickers: seq<Ticker>)
    ensures Distinct(Dedupe(tickers)) && forall t :: t in Dedupe(tickers) <==> t in tickers
  {
    if tickers != [] {
      var init, t := tickers[..|tickers| - 1], tickers[|tickers| - 1];
      DedupeIsDistinct(init);
      assert tickers == init + [t];
      if t !in Dedupe(init) {
        assert forall i :: 0 <= i < |Dedupe(init)| ==> Dedupe(init)[i] in Dedupe(init);
      }
    }
  }

  /** The place where a ticker is first named. */
  ghost predicate FirstAt(tickers: seq<Ticker>, t: Ticker, i: nat) {
    i < |tickers| && tickers[i] == t && t !in tickers[..i]
  }

  lemma FirstAtGrows(init: seq<Ticker>, last: Ticker, t: Ticker, i: nat)
    requires FirstAt(init, t, i)
    ensures FirstAt(init + [last], t, i)
  {
    assert (init + [last])[..i] == init[..i];
  }

  ghost predicate InTurn(tickers: seq<Ticker>, a: Ticker, b: Ticker) {
    exists i: nat, j: nat :: i < j && FirstAt(tickers, a, i) && FirstAt(tickers, b, j)
  }

  lemma InTurnGrows(init: seq<Ticker>, last: Ticker, a: Ticker, b: Ticker)
    requires InTurn(init, a, b)
    ensures InTurn(init + [last], a, b)
  {
    var i: nat, j: nat :| i < j && FirstAt(init, a, i) && FirstAt(init, b, j);
    FirstAtGrows(init, last, a, i);
    FirstAtGrows(init, last, b, j);
  }

  lemma {:induction false} NamedFirst(tickers: seq<Ticker>, t: Ticker) returns (i: nat)
    requires t in tickers
    ensures FirstAt(tickers, t, i)
  {
    var init, last := tickers[..|tickers| - 1], tickers[|tickers| - 1];
    assert tickers == init + [last];
    if t in init {
      i := NamedFirst(init, t);
      FirstAtGrows(init, last, t, i);
    } else {
      i := |init|;
    }
  }

  /** A repeated ticker counts where it is first named. */
  lemma {:induction false} DedupeKeepsOrder(tickers: seq<Ticker>, i: nat, j: nat)
    requires i < j < |Dedupe(tickers)|
    ensures InTurn(tickers, Dedupe(tickers)[i], Dedupe(tickers)[j])
  {
    var init, last := tickers[..|tickers| - 1], tickers[|tickers| - 1];
    assert tickers == init + [last];
    if j < |Dedupe(init)| {
      DedupeKeepsOrder(init, i, j);
      InTurnGrows(init, last, Dedupe(init)[i], Dedupe(init)[j]);
    } else {
      DedupeIsDistinct(init);
      assert Dedupe(init)[i] in Dedupe(init);
      var a := NamedFirst(init, Dedupe(init)[i]);
      FirstAtGrows(init, last, Dedupe(init)[i], a);
      assert FirstAt(tickers, last, |init|);
    }
  }

  /** How many of the tickers are in the directory. */
  function Listed1(tickers: seq<Ticker>, directory: set<Ticker>): nat {
    if tickers == [] then 0 else (if tickers[0] in directory then 1 else 0) + Listed1(tickers[1..], directory)
  }

  lemma {:induction false} ListedSnoc(init: seq<Ticker>, t: Ticker, directory: set<Ticker>)
    ensures Listed1(init + [t], directory) == Listed1(init, directory) + if t in directory then 1 else 0
  {
    if init == [] {
      assert [] + [t] == [t] && [t][1..] == [];
    } else {
      ListedSnoc(init[1..], t, directory);
      assert (init + [t])[1..] == init[1..] + [t];
    }
  }

  /** Of different tickers each is judged by itself and those before it: one the directory does not have is unknown;
      one it has is accepted while fewer than the limit came before it, and too many from then on. */
  lemma {:induction false} JudgeDecides(tickers: seq<Ticker>, directory: set<Ticker>, maxTickers: nat, k: nat)
    requires Distinct(tickers) && k < |tickers|
    ensures var (accepted, rejected) := Judge(tickers, directory, maxTickers);
            var t, room := tickers[k], Listed1(tickers[..k], directory) < maxTickers;
            && (t in accepted <==> t in directory && room)
            && (UnknownTicker(t) in rejected <==> t !in directory)
            && (TooManyTickers(t) in rejected <==> t in directory && !room)
    ensures |Judge(tickers, directory, maxTickers).0| == Min(Listed1(tickers, directory), maxTickers)
  {
    var init, last := tickers[..|tickers| - 1], tickers[|tickers| - 1];
    assert tickers == init + [last];
    var (accepted, rejected) := Judge(init, directory, maxTickers);
    ListedSnoc(init, last, directory);
    JudgedAmong(init, directory, maxTickers, last);
    if init == [] {
      assert tickers[..k] == [];
    } else if k < |init| {
      JudgeDecides(init, directory, maxTickers, k);
      assert init[..k] == tickers[..k] && init[k] == tickers[k] && tickers[k] != last;
    } else {
      JudgeDecides(init, directory, maxTickers, 0);
      assert tickers[..k] == init;
      assert last !in init by { assert forall i :: 0 <= i < |init| ==> init[i] == tickers[i]; }
    }
  }

  /** Only what was asked for is judged. */
  lemma {:induction false} JudgedAmong(tickers: seq<Ticker>, directory: set<Ticker>, maxTickers: nat, t: Ticker)
    ensures var (accepted, rejected) := Judge(tickers, directory, maxTickers);
            t in accepted || UnknownTicker(t) in rejected || TooManyTickers(t) in rejected ==> t in tickers
  {
    if tickers != [] {
      JudgedAmong(tickers[..|tickers| - 1], directory, maxTickers, t);
      assert tickers == tickers[..|tickers| - 1] + [tickers[|tickers| - 1]];
    }
  }

  lemma LastIsNew(tickers: seq<Ticker>)
    requires Distinct(tickers) && tickers != []
    ensures var init, last := tickers[..|tickers| - 1], tickers[|tickers| - 1];
            tickers == init + [last] && Distinct(init) && last !in init
  {
    var init := tickers[..|tickers| - 1];
    assert forall n :: 0 <= n < |init| ==> init[n] == tickers[n];
  }

  lemma {:induction false} AcceptedKeepOrder(
      tickers: seq<Ticker>, directory: set<Ticker>, maxTickers: nat, i: nat, j: nat)
    requires Distinct(tickers) && i < j < |Judge(tickers, directory, maxTickers).0|
    ensures InTurn(tickers, Judge(tickers, directory, maxTickers).0[i], Judge(tickers, directory, maxTickers).0[j])
  {
    LastIsNew(tickers);
    var init, last := tickers[..|tickers| - 1], tickers[|tickers| - 1];
    var accepted := Judge(init, directory, maxTickers).0;
    if j < |accepted| {
      AcceptedKeepOrder(init, directory, maxTickers, i, j);
      InTurnGrows(init, last, accepted[i], accepted[j]);
    } else {
      NamedBefore(init, last, directory, maxTickers, accepted[i]);
    }
  }

  lemma {:induction false} RejectedKeepOrder(
      tickers: seq<Ticker>, directory: set<Ticker>, maxTickers: nat, i: nat, j: nat)
    requires Distinct(tickers) && i < j < |Judge(tickers, directory, maxTickers).1|
    ensures InTurn(tickers, Judge(tickers, directory, maxTickers).1[i].ticker,
              Judge(tickers, directory, maxTickers).1[j].ticker)
  {
    LastIsNew(tickers);
    var init, last := tickers[..|tickers| - 1], tickers[|tickers| - 1];
    var rejected := Judge(init, directory, maxTickers).1;
    if j < |rejected| {
      RejectedKeepOrder(init, directory, maxTickers, i, j);
      InTurnGrows(init, last, rejected[i].ticker, rejected[j].ticker);
    } else {
      assert rejected[i] in rejected;
      assert rejected[i] == UnknownTicker(rejected[i].ticker) || rejected[i] == TooManyTickers(rejected[i].ticker);
      NamedBefore(init, last, directory, maxTickers, rejected[i].ticker);
    }
  }

  /** Both answers are in the order asked. */
  lemma JudgeKeepsOrder(tickers: seq<Ticker>, directory: set<Ticker>, maxTickers: nat, i: nat, j: nat)
    requires Distinct(tickers) && i < j
    ensures j < |Judge(tickers, directory, maxTickers).0| ==>
              InTurn(tickers, Judge(tickers, directory, maxTickers).0[i], Judge(tickers, directory, maxTickers).0[j])
    ensures j < |Judge(tickers, directory, maxTickers).1| ==>
              InTurn(tickers, Judge(tickers, directory, maxTickers).1[i].ticker,
                Judge(tickers, directory, maxTickers).1[j].ticker)
  {
    if j < |Judge(tickers, directory, maxTickers).0| { AcceptedKeepOrder(tickers, directory, maxTickers, i, j); }
    if j < |Judge(tickers, directory, maxTickers).1| { RejectedKeepOrder(tickers, directory, maxTickers, i, j); }
  }

  lemma NamedBefore(init: seq<Ticker>, last: Ticker, directory: set<Ticker>, maxTickers: nat, t: Ticker)
    requires last !in init
    requires var (accepted, rejected) := Judge(init, directory, maxTickers);
             t in accepted || UnknownTicker(t) in rejected || TooManyTickers(t) in rejected
    ensures InTurn(init + [last], t, last)
  {
    JudgedAmong(init, directory, maxTickers, t);
    var a := NamedFirst(init, t);
    FirstAtGrows(init, last, t, a);
    assert (init + [last])[..|init|] == init;
    assert FirstAt(init + [last], last, |init|);
  }

  /** Snapshots of the known books a session did not follow before. */
  ghost function NewSnapshots(accepted: seq<Ticker>, previous: seq<Ticker>, books: Books): seq<Message> {
    if accepted == [] then [] else
      var t := accepted[|accepted| - 1];
      NewSnapshots(accepted[..|accepted| - 1], previous, books)
          + (if t in previous then [] else SnapshotIfHeld(books, t))
  }

  ghost function SubscribeReply(
      accepted: seq<Ticker>, rejected: seq<Rejection>, previous: seq<Ticker>, books: Books): seq<Message>
  {
    [Subscribed(accepted, rejected)] + NewSnapshots(accepted, previous, books)
  }

  lemma OneNewsTells(before: seq<Message>, previous: seq<Ticker>, books: Books, u: Ticker, t: Ticker)
    ensures Of(before + (if u in previous then [] else SnapshotIfHeld(books, u)), t) ==
              Of(before, t) + if u == t && u !in previous then SnapshotIfHeld(books, t) else []
  {
    ForSessionAppend(before, if u in previous then [] else SnapshotIfHeld(books, u), [t]);
    if u in books { ForSessionOne(SnapshotOf(books, u), [t]); }
  }

  lemma {:induction false} NewsTells(accepted: seq<Ticker>, previous: seq<Ticker>, books: Books, t: Ticker)
    requires Distinct(accepted)
    ensures Of(NewSnapshots(accepted, previous, books), t) ==
              if t in accepted && t !in previous then SnapshotIfHeld(books, t) else []
  {
    if accepted != [] {
      var init, u := accepted[..|accepted| - 1], accepted[|accepted| - 1];
      assert accepted == init + [u];
      NewsTells(init, previous, books, t);
      OneNewsTells(NewSnapshots(init, previous, books), previous, books, u, t);
      if t == u { assert t !in init; }
    }
  }

  lemma {:induction false} NewsIsSnapshots(accepted: seq<Ticker>, previous: seq<Ticker>, books: Books)
    ensures forall m :: m in NewSnapshots(accepted, previous, books) ==> m.Snapshot?
  {
    if accepted != [] { NewsIsSnapshots(accepted[..|accepted| - 1], previous, books); }
  }

  /** The reply to a subscription: which tickers are followed now and which were refused and why, and then the book of
      every one of them that was not followed before and that the hub holds, once. */
  lemma SubscriberIsTold(
      accepted: seq<Ticker>, rejected: seq<Rejection>, previous: seq<Ticker>, books: Books, t: Ticker)
    requires Distinct(accepted)
    ensures var q := SubscribeReply(accepted, rejected, previous, books);
            && q[0] == Subscribed(accepted, rejected) && (forall i :: 0 < i < |q| ==> q[i].Snapshot?)
            && if t in accepted && t !in previous && t in books then IsPicture(Of(q, t), books, t) else Of(q, t) == []
  {
    var head, news := [Subscribed(accepted, rejected)], NewSnapshots(accepted, previous, books);
    ForSessionAppend(head, news, [t]);
    ForSessionOne(head[0], [t]);
    NewsTells(accepted, previous, books, t);
    NewsIsSnapshots(accepted, previous, books);
    if t in books { SnapshotShows(books, t); }
    assert forall i :: 0 <= i < |news| ==> news[i] in news;
  }

  lemma ReadNewSnapshot(shown: Books, earlier: seq<Message>, previous: seq<Ticker>, books: Books, u: Ticker)
    requires AllWellFormed(books)
    ensures var mid := ReadAll(shown, earlier);
            ReadAll(shown, earlier + (if u in previous then [] else SnapshotIfHeld(books, u))) ==
            if u in previous || u !in books then mid else mid[u := books[u]]
  {
    ReadAppend(shown, earlier, if u in previous then [] else SnapshotIfHeld(books, u));
    ReadIfHeld(ReadAll(shown, earlier), books, u);
  }

  /** A session after the hub accepted a subscription for it. */
  ghost function Resubscribed(
      s: Session, accepted: seq<Ticker>, rejected: seq<Rejection>, books: Books, nowNs: int, queueMax: nat): Session
  {
    Offered(s.(subs := accepted), SubscribeReply(accepted, rejected, s.subs, books), books, nowNs, queueMax)
  }

  /** The books shown once every newly followed known market was replaced by the hub's copy. */
  ghost function Introduced(shown: Books, accepted: seq<Ticker>, previous: seq<Ticker>, books: Books): Books {
    if accepted == [] then shown else
      var u, mid := accepted[|accepted| - 1], Introduced(shown, accepted[..|accepted| - 1], previous, books);
      if u in previous || u !in books then mid else mid[u := books[u]]
  }

  lemma {:induction false} ReadNewSnapshots(shown: Books, accepted: seq<Ticker>, previous: seq<Ticker>, books: Books)
    requires AllWellFormed(books)
    ensures ReadAll(shown, NewSnapshots(accepted, previous, books)) == Introduced(shown, accepted, previous, books)
  {
    if accepted != [] {
      var init := accepted[..|accepted| - 1];
      ReadNewSnapshots(shown, init, previous, books);
      ReadNewSnapshot(shown, NewSnapshots(init, previous, books), previous, books, accepted[|accepted| - 1]);
    }
  }

  lemma {:induction false} IntroducedBooks(
      shown: Books, accepted: seq<Ticker>, previous: seq<Ticker>, books: Books, t: Ticker)
    ensures var now := Introduced(shown, accepted, previous, books);
            if t in accepted && t !in previous && t in books then t in now && now[t] == books[t]
            else (t in now <==> t in shown) && (t in shown ==> now[t] == shown[t])
  {
    if accepted != [] {
      var init, u := accepted[..|accepted| - 1], accepted[|accepted| - 1];
      IntroducedBooks(shown, init, previous, books, t);
      assert t in accepted <==> t in init || t == u by { assert accepted == init + [u]; }
    }
  }

  lemma ReadSubscription(
      shown: Books, books: Books, previous: seq<Ticker>, accepted: seq<Ticker>, rejected: seq<Rejection>, t: Ticker)
    requires AllWellFormed(books)
    ensures var now := ReadAll(shown, SubscribeReply(accepted, rejected, previous, books));
            if t !in accepted then t !in now
            else if t !in previous && t in books then t in now && now[t] == books[t]
            else (t in now <==> t in shown) && (t in shown ==> now[t] == shown[t])
  {
    var head := Subscribed(accepted, rejected);
    var mid := Read(shown, head);
    ReadAppend(shown, [head], NewSnapshots(accepted, previous, books));
    ReadOne(shown, head);
    ReadNewSnapshots(mid, accepted, previous, books);
    IntroducedBooks(mid, accepted, previous, books, t);
  }

  /** Exactly when a subscription leaves the client agreeing about an accepted market: one followed before, if it
      agreed before; a new one, unless the client still shows it while the hub holds no book of it. */
  lemma SubscriptionOutcome(
      shown: Books, books: Books, previous: seq<Ticker>, accepted: seq<Ticker>, rejected: seq<Rejection>, t: Ticker)
    requires AllWellFormed(books) && t in accepted
    ensures AgreesAt(ReadAll(shown, SubscribeReply(accepted, rejected, previous, books)), books, t)
            <==> if t in previous then AgreesAt(shown, books, t) else t in shown ==> t in books
  {
    ReadSubscription(shown, books, previous, accepted, rejected, t);
  }

  /** So, of a client that agreed, about all of them exactly when what it shows of the new ones the hub holds. */
  lemma SubscriptionAgreesIff(
      shown: Books, books: Books, previous: seq<Ticker>, accepted: seq<Ticker>, rejected: seq<Rejection>)
    requires AllWellFormed(books) && Agrees(shown, books, previous)
    ensures Agrees(ReadAll(shown, SubscribeReply(accepted, rejected, previous, books)), books, accepted)
            <==> forall t :: t in accepted && t !in previous && t in shown ==> t in books
  {
    var now := ReadAll(shown, SubscribeReply(accepted, rejected, previous, books));
    forall t | t in accepted ensures AgreesAt(now, books, t) <==> t in previous || (t in shown ==> t in books) {
      SubscriptionOutcome(shown, books, previous, accepted, rejected, t);
    }
  }

  /** A subscription read to its end: the client shows nothing it does not follow; one that showed nothing else
      before, and agreed, agrees. */
  lemma SubscribeReachesClient(
      shown: Books, books: Books, previous: seq<Ticker>, accepted: seq<Ticker>, rejected: seq<Rejection>)
    requires AllWellFormed(books)
    ensures var now := ReadAll(shown, SubscribeReply(accepted, rejected, previous, books));
            Tidy(now, accepted)
            && (Agrees(shown, books, previous) && Tidy(shown, previous) ==> Agrees(now, books, accepted))
  {
    var now := ReadAll(shown, SubscribeReply(accepted, rejected, previous, books));
    forall t | t in now ensures t in accepted {
      ReadSubscription(shown, books, previous, accepted, rejected, t);
    }
    if Agrees(shown, books, previous) && Tidy(shown, previous) {
      SubscriptionAgreesIff(shown, books, previous, accepted, rejected);
    }
  }

  // ------------------------------------------------------------------ lagging

  lemma ReadResync(shown: Books, earlier: seq<Message>, books: Books, u: Ticker)
    requires AllWellFormed(books)
    ensures var mid := ReadAll(shown, earlier);
            ReadAll(shown, earlier + [Resync(u, true)] + SnapshotIfHeld(books, u)) ==
            if u in books then mid[u := books[u]] else mid - {u}
  {
    var mid := ReadAll(shown, earlier);
    ReadAppend(shown, earlier + [Resync(u, true)], SnapshotIfHeld(books, u));
    ReadAppend(shown, earlier, [Resync(u, true)]);
    ReadOne(mid, Resync(u, true));
    ReadIfHeld(mid - {u}, books, u);
    assert u in books ==> (mid - {u})[u := books[u]] == mid[u := books[u]];
  }

  /** The books shown once every listed market was replaced by the hub's copy, or cleared. */
  ghost function Resynced(shown: Books, subs: seq<Ticker>, books: Books): Books {
    if subs == [] then shown else
      var u, mid := subs[|subs| - 1], Resynced(shown, subs[..|subs| - 1], books);
      if u in books then mid[u := books[u]] else mid - {u}
  }

  lemma {:induction false} ReadResyncs(shown: Books, subs: seq<Ticker>, books: Books)
    requires AllWellFormed(books)
    ensures ReadAll(shown, Resyncs(subs, books)) == Resynced(shown, subs, books)
  {
    if subs != [] {
      ReadResyncs(shown, subs[..|subs| - 1], books);
      ReadResync(shown, Resyncs(subs[..|subs| - 1], books), books, subs[|subs| - 1]);
    }
  }

  lemma {:induction false} ResyncedBooks(shown: Books, subs: seq<Ticker>, books: Books, t: Ticker)
    ensures var now := Resynced(shown, subs, books);
            if t in subs then (t in now <==> t in books) && (t in books ==> now[t] == books[t])
            else (t in now <==> t in shown) && (t in shown ==> now[t] == shown[t])
  {
    if subs != [] {
      var init, u := subs[..|subs| - 1], subs[|subs| - 1];
      ResyncedBooks(shown, init, books, t);
      assert t in subs <==> t in init || t == u by { assert subs == init + [u]; }
    }
  }

  /** After a lag the client agrees with the hub about everything it follows, whatever was discarded.
      It shows nothing else exactly when it showed nothing else after the replies that survived. */
  lemma LagReachesClient(shown: Books, replies: seq<Message>, subs: seq<Ticker>, books: Books)
    requires AllWellFormed(books)
    ensures Agrees(ReadAll(shown, replies + Resyncs(subs, books)), books, subs)
    ensures Tidy(ReadAll(shown, replies + Resyncs(subs, books)), subs) <==> Tidy(ReadAll(shown, replies), subs)
  {
    ReadAppend(shown, replies, Resyncs(subs, books));
    var mid := ReadAll(shown, replies);
    ReadResyncs(mid, subs, books);
    var now := Resynced(mid, subs, books);
    forall t ensures t in subs ==> AgreesAt(now, books, t)
             ensures t !in subs ==> (t in now <==> t in mid) {
      ResyncedBooks(mid, subs, books, t);
    }
  }

  /** Lags less than a minute old. */
  function LateLags(lags: seq<int>, nowNs: int): nat {
    if lags == [] then 0 else (if nowNs - lags[0] < 60_000_000_000 then 1 else 0) + LateLags(lags[1..], nowNs)
  }

  ghost predicate Rising(lags: seq<int>) {
    forall i, j :: 0 <= i < j < |lags| ==> lags[i] <= lags[j]
  }

  lemma {:induction false} RecentOnes(lags: seq<int>, nowNs: int)
    requires Rising(lags)
    ensures |Recent(lags, nowNs)| == LateLags(lags, nowNs)
  {
    if lags != [] {
      RecentOnes(lags[1..], nowNs);
      if nowNs - lags[0] < 60_000_000_000 { AllLate(lags, nowNs); }
    }
  }

  lemma {:induction false} AllLate(lags: seq<int>, nowNs: int)
    requires forall i :: 0 <= i < |lags| ==> nowNs - lags[i] < 60_000_000_000
    ensures LateLags(lags, nowNs) == |lags|
  {
    if lags != [] { AllLate(lags[1..], nowNs); }
  }

  /** A session that lags is closed exactly when this is its third lag within a minute; if not, all that is queued
      for it is replaced by the replies of the offer and a resynchronization. */
  lemma ThirdLagCloses(s: Session, messages: seq<Message>, books: Books, nowNs: int, queueMax: nat)
    requires Lags(s, messages, queueMax) && Rising(s.lags + [nowNs])
    ensures var n := Offered(s, messages, books, nowNs, queueMax);
            && (n.closed <==> LateLags(s.lags + [nowNs], nowNs) >= 3)
            && n.queue == (if n.closed then [] else Replies(messages) + Resyncs(s.subs, books))
            && Rising(n.lags) && n.subs == s.subs && n.gone == s.gone
  {
    RecentOnes(s.lags + [nowNs], nowNs);
    RecentRises(s.lags + [nowNs], nowNs);
  }

  /** A market's part of a resynchronization: that it lagged, and the book if one is held. */
  ghost predicate Resyncing(q: seq<Message>, books: Books, t: Ticker) {
    && q != [] && q[0] == Resync(t, true)
    && if t in books then |q| == 2 && Shows(q[1], t, books[t]) else |q| == 1
  }

  lemma {:induction false} ResyncsTell(subs: seq<Ticker>, books: Books, t: Ticker)
    requires Distinct(subs)
    ensures if t in subs then Resyncing(Of(Resyncs(subs, books), t), books, t) else Of(Resyncs(subs, books), t) == []
  {
    if subs != [] {
      var init, u := subs[..|subs| - 1], subs[|subs| - 1];
      assert subs == init + [u];
      ResyncsTell(init, books, t);
      OneResyncTells(Resyncs(init, books), books, u, t);
      if t == u { assert t !in init; }
    }
  }

  lemma OneResyncTells(before: seq<Message>, books: Books, u: Ticker, t: Ticker)
    ensures Of(before + [Resync(u, true)] + SnapshotIfHeld(books, u), t) ==
              Of(before, t) + if u == t then [Resync(t, true)] + SnapshotIfHeld(books, t) else []
    ensures Resyncing([Resync(t, true)] + SnapshotIfHeld(books, t), books, t)
  {
    ForSessionAppend(before + [Resync(u, true)], SnapshotIfHeld(books, u), [t]);
    ForSessionAppend(before, [Resync(u, true)], [t]);
    ForSessionOne(Resync(u, true), [t]);
    if u in books { ForSessionOne(SnapshotOf(books, u), [t]); }
    if t in books { SnapshotShows(books, t); }
  }

  lemma {:induction false} RepliesAreOfNone(messages: seq<Message>, t: Ticker)
    ensures Of(Replies(messages), t) == []
  {
    if messages != [] {
      var init, m := messages[..|messages| - 1], messages[|messages| - 1];
      RepliesAreOfNone(init, t);
      ForSessionAppend(Replies(init), if m.IsReply() then [m] else [], [t]);
      ForSessionOne(m, [t]);
    }
  }

  /** After a lag that does not close it, a session has of each market it follows that it lagged and then the book the
      hub holds, and of no other market anything. */
  lemma LagTells(s: Session, messages: seq<Message>, books: Books, nowNs: int, queueMax: nat, t: Ticker)
    requires Lags(s, messages, queueMax) && Distinct(s.subs)
    ensures var n := Offered(s, messages, books, nowNs, queueMax);
            !n.closed ==> if t in s.subs then Resyncing(Of(n.queue, t), books, t) else Of(n.queue, t) == []
  {
    ForSessionAppend(Replies(messages), Resyncs(s.subs, books), [t]);
    RepliesAreOfNone(messages, t);
    ResyncsTell(s.subs, books, t);
  }

  lemma {:induction false} RecentRises(lags: seq<int>, nowNs: int)
    requires Rising(lags)
    ensures Rising(Recent(lags, nowNs))
  {
    if lags != [] { RecentRises(lags[1..], nowNs); }
  }

  /** Every reply of the offer survives it, and nothing else. */
  lemma {:induction false} RepliesSurvive(messages: seq<Message>, m: Message)
    ensures multiset(Replies(messages))[m] == if m.Subscribed? || m.Error? then multiset(messages)[m] else 0
  {
    if messages != [] {
      var init, last := messages[..|messages| - 1], messages[|messages| - 1];
      RepliesSurvive(init, m);
      CountSnoc(init, last, m);
      CountSnoc(Replies(init), last, m);
      assert messages == init + [last];
      assert Replies(init) + [] == Replies(init);
    }
  }

  // ------------------------------------------------------------------ offering to the queue

  /** What the client will show once it has read everything still queued. */
  ghost function Eventually(shown: Books, s: Session): Books {
    ReadAll(shown, s.queue)
  }

  ghost predicate HasSubscribed(messages: seq<Message>) {
    exists i :: 0 <= i < |messages| && messages[i].Subscribed?
  }

  /** A lag whose offer holds no `subscribed` reply discards any such reply still queued. The client
      then still shows a market the session left, unless it showed only followed markets already. */
  ghost predicate LagLosesReply(shown: Books, s: Session, messages: seq<Message>, queueMax: nat) {
    Lags(s, messages, queueMax) && !HasSubscribed(messages) && !Tidy(shown, s.subs)
  }

  lemma {:induction false} ErrorsShowNothing(shown: Books, messages: seq<Message>)
    requires !HasSubscribed(messages)
    ensures ReadAll(shown, Replies(messages)) == shown
  {
    if messages != [] {
      var init, m := messages[..|messages| - 1], messages[|messages| - 1];
      assert forall i :: 0 <= i < |init| ==> init[i] == messages[i];
      assert !m.Subscribed?;
      ErrorsShowNothing(shown, init);
      if m.Error? {
        ReadAppend(shown, Replies(init), [m]);
        ReadOne(shown, m);
      } else {
        assert Replies(messages) == Replies(init);
      }
    }
  }

  /** After a lag the client agrees about every market followed. Without a `subscribed` reply in the
      offer it shows nothing else exactly when what it was already sent showed nothing else. */
  lemma LagOutcome(shown: Books, s: Session, messages: seq<Message>, books: Books, nowNs: int, queueMax: nat)
    requires AllWellFormed(books) && Lags(s, messages, queueMax)
    requires Offered(s, messages, books, nowNs, queueMax).Open()
    ensures var now := Eventually(shown, Offered(s, messages, books, nowNs, queueMax));
            && Agrees(now, books, s.subs)
            && (!HasSubscribed(messages) ==> (Tidy(now, s.subs) <==> Tidy(shown, s.subs)))
  {
    LagReachesClient(shown, Replies(messages), s.subs, books);
    if !HasSubscribed(messages) { ErrorsShowNothing(shown, messages); }
  }

  ghost predicate MarketOnly(q: seq<Message>) {
    forall i :: 0 <= i < |q| ==> q[i].IsMarket()
  }

  lemma {:induction false} MarketMessagesHaveNoReply(q: seq<Message>)
    requires MarketOnly(q)
    ensures Replies(q) == [] && !HasSubscribed(q)
  {
    if q != [] { MarketMessagesHaveNoReply(q[..|q| - 1]); }
  }

  lemma {:induction false} SnapshotsAreMarketOnly(accepted: seq<Ticker>, previous: seq<Ticker>, books: Books)
    ensures MarketOnly(NewSnapshots(accepted, previous, books))
  {
    if accepted != [] { SnapshotsAreMarketOnly(accepted[..|accepted| - 1], previous, books); }
  }

  lemma {:induction false} RepliesAppend(a: seq<Message>, b: seq<Message>)
    ensures Replies(a + b) == Replies(a) + Replies(b)
  {
    if b == [] {
      assert a + b == a;
    } else {
      var init, m := b[..|b| - 1], b[|b| - 1];
      RepliesAppend(a, init);
      assert (a + b)[..|a + b| - 1] == a + init;
      assert Replies(a + b) == Replies(a + init) + (if m.IsReply() then [m] else []);
    }
  }

  // ------------------------------------------------------------------ publisher to viewer

  /** The whole path: publisher, bus, hub and one session with its client. `lingering` are the followed markets of
      which the client will show an old book while the hub holds none; `intact`, that no lag so far lost a reply
      the client still needed. */
  datatype Path = Path(bus: System, session: Session, shown: Books, lingering: set<Ticker>, intact: bool)

  datatype PathAction =
    | OnBus(action: Action, nowNs: int)
    | Subscribe(tickers: seq<Ticker>, directory: set<Ticker>, maxTickers: nat, nowNs: int)
    | BadRequest(nowNs: int)                   // answered with `error`
    | Send                                     // the writer sends one queued message
    | Close | Vanish

  /** A lag resynchronizes whatever lingered. */
  ghost function AfterOffer(p: Path, messages: seq<Message>, nowNs: int, queueMax: nat): Path {
    p.(session := Offered(p.session, messages, p.bus.consumer.books, nowNs, queueMax),
       lingering := if Lags(p.session, messages, queueMax) then {} else p.lingering,
       intact := p.intact && !LagLosesReply(p.shown, p.session, messages, queueMax))
  }

  /** A newly followed market lingers if the client still shows it and the hub holds no book of it. */
  ghost function LingeringAfter(
      lingering: set<Ticker>, due: Books, books: Books, previous: seq<Ticker>, accepted: seq<Ticker>): set<Ticker>
  {
    set t | t in accepted && if t in previous then t in lingering else t in due && t !in books
  }

  ghost function PathNext(p: Path, a: PathAction, queueMax: nat): Path {
    match a
    case OnBus(action, nowNs) =>
      if !Enabled(p.bus, action) then p
      else
        var q := p.(bus := Next(p.bus, action));
        if action.Publish? then q
        else AfterOffer(q.(lingering := q.lingering - q.bus.consumer.books.Keys),
                        ForSession(Batch(p.bus.consumer, p.bus.wire[action.index].envelope), p.session.subs), nowNs,
                            queueMax)
    case Subscribe(tickers, directory, maxTickers, nowNs) =>
      var (accepted, rejected) := Judge(Dedupe(tickers), directory, maxTickers);
      var books, previous := p.bus.consumer.books, p.session.subs;
      AfterOffer(p.(session := p.session.(subs := accepted),
                    lingering := LingeringAfter(p.lingering, Eventually(p.shown, p.session), books, previous,
                        accepted)),
                 SubscribeReply(accepted, rejected, previous, books), nowNs, queueMax)
    case BadRequest(nowNs) => AfterOffer(p, [Error], nowNs, queueMax)
    case Send =>
      if p.session.queue == [] then p
      else p.(session := p.session.(queue := p.session.queue[1..]), shown := Read(p.shown, p.session.queue[0]))
    case Close => if p.session.closed then p else p.(session := p.session.(closed := true, queue := []))
    case Vanish => p.(session := p.session.(gone := true))
  }

  ghost function PathBoot(epoch: nat): Path {
    Path(Boot(epoch), Session([], [Hello], [], false, false), map[], {}, true)
  }

  ghost function PathRun(epoch: nat, queueMax: nat, actions: seq<PathAction>): Path {
    if actions == [] then PathBoot(epoch)
    else PathNext(PathRun(epoch, queueMax, actions[..|actions| - 1]), actions[|actions| - 1], queueMax)
  }

  /** The client will agree about exactly the followed markets that do not linger. */
  ghost predicate Told(due: Books, books: Books, subs: seq<Ticker>, lingering: set<Ticker>) {
    && (forall t :: t in subs && t !in lingering ==> AgreesAt(due, books, t))
    && (forall t :: t in lingering ==> t in subs && t in due && t !in books)
  }

  ghost predicate PathInvariant(p: Path) {
    && Invariant(p.bus)
    && (p.session.Open() ==> Told(Eventually(p.shown, p.session), p.bus.consumer.books, p.session.subs, p.lingering))
    && (p.session.Open() && p.intact ==> Tidy(Eventually(p.shown, p.session), p.session.subs) && p.lingering == {})
  }

  /** An offer whose messages, read in full, would bring the client up to date does so through the queue. */
  lemma OfferKeepsAgreement(p: Path, messages: seq<Message>, nowNs: int, queueMax: nat)
    requires AllWellFormed(p.bus.consumer.books)
    requires p.session.Open() ==>
             Told(ReadAll(Eventually(p.shown, p.session), messages), p.bus.consumer.books, p.session.subs, p.lingering)
    ensures var q := AfterOffer(p, messages, nowNs, queueMax);
            q.session.Open() ==> Told(Eventually(q.shown, q.session), q.bus.consumer.books, q.session.subs, q.lingering)
  {
    if AfterOffer(p, messages, nowNs, queueMax).session.Open() {
      if Lags(p.session, messages, queueMax) {
        LagOutcome(p.shown, p.session, messages, p.bus.consumer.books, nowNs, queueMax);
      } else {
        ReadAppend(p.shown, p.session.queue, messages);
      }
    }
  }

  /** And one that would leave the client showing nothing else does so unless a lag loses a reply. */
  lemma OfferKeepsTidy(p: Path, messages: seq<Message>, nowNs: int, queueMax: nat)
    requires AllWellFormed(p.bus.consumer.books)
    requires p.session.Open() && p.intact ==>
             Tidy(ReadAll(Eventually(p.shown, p.session), messages), p.session.subs) && p.lingering == {}
    requires HasSubscribed(messages) ==> Tidy(ReadAll(p.shown, Replies(messages)), p.session.subs)
    ensures var q := AfterOffer(p, messages, nowNs, queueMax);
            q.session.Open() && q.intact ==> Tidy(Eventually(q.shown, q.session), q.session.subs) && q.lingering == {}
  {
    var q := AfterOffer(p, messages, nowNs, queueMax);
    if q.session.Open() && q.intact {
      if Lags(p.session, messages, queueMax) {
        LagOutcome(p.shown, p.session, messages, p.bus.consumer.books, nowNs, queueMax);
        LagReachesClient(p.shown, Replies(messages), p.session.subs, p.bus.consumer.books);
      } else {
        ReadAppend(p.shown, p.session.queue, messages);
      }
    }
  }

  lemma {:induction false} ReadFirst(shown: Books, queue: seq<Message>)
    requires queue != []
    ensures ReadAll(shown, queue) == ReadAll(Read(shown, queue[0]), queue[1..])
  {
    ReadAppend(shown, [queue[0]], queue[1..]);
    ReadOne(shown, queue[0]);
    assert queue == [queue[0]] + queue[1..];
  }

  lemma BatchTells(due: Books, f: Follower, e: Envelope, subs: seq<Ticker>, lingering: set<Ticker>)
    requires AllWellFormed(f.books) && RefreshAgrees(f, e) && Told(due, f.books, subs, lingering)
    ensures Told(ReadAll(due, ForSession(Batch(f, e), subs)), Observed(f, e).books, subs,
            lingering - Observed(f, e).books.Keys)
  {
    var now, books := ReadAll(due, ForSession(Batch(f, e), subs)), Observed(f, e).books;
    forall t ensures t in subs && t !in lingering - books.Keys ==> AgreesAt(now, books, t)
             ensures t in lingering - books.Keys ==> t in now
    {
      if t in lingering {
        BatchFindsOne(due, f, e, subs, t);
      } else if t in subs {
        BatchReachesOne(due, f, e, subs, t);
      }
    }
  }

  lemma BusStepKeepsPath(p: Path, action: Action, nowNs: int, queueMax: nat)
    requires PathInvariant(p) && Enabled(p.bus, action)
    requires action.Deliver? ==> RefreshAgrees(p.bus.consumer, p.bus.wire[action.index].envelope)
    ensures PathInvariant(PathNext(p, OnBus(action, nowNs), queueMax))
  {
    StepKeepsInvariant(p.bus, action);
    var q := p.(bus := Next(p.bus, action), lingering := p.lingering - Next(p.bus, action).consumer.books.Keys);
    if action.Deliver? {
      var e := p.bus.wire[action.index].envelope;
      var batch := ForSession(Batch(p.bus.consumer, e), p.session.subs);
      var due := Eventually(p.shown, p.session);
      if p.session.Open() {
        BatchTells(due, p.bus.consumer, e, p.session.subs, p.lingering);
        if p.intact { BatchKeepsTidy(due, p.bus.consumer, e, p.session.subs); }
      }
      ForSessionIsWithin(Batch(p.bus.consumer, e), p.session.subs);
      MarketMessagesHaveNoReply(batch);
      OfferKeepsAgreement(q, batch, nowNs, queueMax);
      OfferKeepsTidy(q, batch, nowNs, queueMax);
    }
  }

  lemma SubscriptionTells(
      due: Books, books: Books, previous: seq<Ticker>, accepted: seq<Ticker>, rejected: seq<Rejection>,
      lingering: set<Ticker>)
    requires AllWellFormed(books) && Told(due, books, previous, lingering)
    ensures Told(ReadAll(due, SubscribeReply(accepted, rejected, previous, books)), books, accepted,
            LingeringAfter(lingering, due, books, previous, accepted))
  {
    var now, left := ReadAll(due, SubscribeReply(accepted, rejected, previous, books)),
        LingeringAfter(lingering, due, books, previous, accepted);
    forall t ensures t in accepted && t !in left ==> AgreesAt(now, books, t)
             ensures t in left ==> t in now && t !in books
    {
      if t in accepted {
        SubscriptionOutcome(due, books, previous, accepted, rejected, t);
        ReadSubscription(due, books, previous, accepted, rejected, t);
      }
    }
  }

  /** A subscription of a client that shows nothing it does not follow leaves nothing new lingering. */
  lemma TidySubscription(due: Books, books: Books, previous: seq<Ticker>, accepted: seq<Ticker>, lingering: set<Ticker>)
    requires Tidy(due, previous)
    ensures LingeringAfter(lingering, due, books, previous, accepted) <= lingering
  {
  }

  lemma RepliesOfSubscription(accepted: seq<Ticker>, rejected: seq<Rejection>, previous: seq<Ticker>, books: Books)
    ensures Replies(SubscribeReply(accepted, rejected, previous, books)) == [Subscribed(accepted, rejected)]
  {
    var news := NewSnapshots(accepted, previous, books);
    SnapshotsAreMarketOnly(accepted, previous, books);
    MarketMessagesHaveNoReply(news);
    RepliesAppend([Subscribed(accepted, rejected)], news);
    assert [Subscribed(accepted, rejected)][..0] == [];
  }

  lemma SubscribeKeepsPath(p: Path, a: PathAction, queueMax: nat)
    requires PathInvariant(p) && a.Subscribe?
    ensures PathInvariant(PathNext(p, a, queueMax))
  {
    var (accepted, rejected) := Judge(Dedupe(a.tickers), a.directory, a.maxTickers);
    var books, previous, due := p.bus.consumer.books, p.session.subs, Eventually(p.shown, p.session);
    var reply := SubscribeReply(accepted, rejected, previous, books);
    var q := p.(session := p.session.(subs := accepted),
        lingering := LingeringAfter(p.lingering, due, books, previous, accepted));
    if p.session.Open() {
      SubscriptionTells(due, books, previous, accepted, rejected, p.lingering);
      SubscribeReachesClient(due, books, previous, accepted, rejected);
      if p.intact { TidySubscription(due, books, previous, accepted, p.lingering); }
    }
    RepliesOfSubscription(accepted, rejected, previous, books);
    ReadOne(p.shown, Subscribed(accepted, rejected));
    OfferKeepsAgreement(q, reply, a.nowNs, queueMax);
    OfferKeepsTidy(q, reply, a.nowNs, queueMax);
  }

  lemma BadRequestKeepsPath(p: Path, nowNs: int, queueMax: nat)
    requires PathInvariant(p)
    ensures PathInvariant(PathNext(p, BadRequest(nowNs), queueMax))
  {
    ReadOne(Eventually(p.shown, p.session), Error);
    assert !HasSubscribed([Error]);
    OfferKeepsAgreement(p, [Error], nowNs, queueMax);
    OfferKeepsTidy(p, [Error], nowNs, queueMax);
  }

  lemma {:induction false} PathBusIsRun(epoch: nat, queueMax: nat, actions: seq<PathAction>) returns (bus: seq<Action>)
    ensures PathRun(epoch, queueMax, actions).bus == Run(epoch, bus)
  {
    if actions == [] {
      bus := [];
    } else {
      var init, a := actions[..|actions| - 1], actions[|actions| - 1];
      var before := PathBusIsRun(epoch, queueMax, init);
      if a.OnBus? && Enabled(PathRun(epoch, queueMax, init).bus, a.action) {
        bus := before + [a.action];
        assert bus[..|bus| - 1] == before;
      } else {
        bus := before;
      }
    }
  }

  lemma {:induction false} PathKeepsInvariant(epoch: nat, queueMax: nat, actions: seq<PathAction>)
    ensures PathInvariant(PathRun(epoch, queueMax, actions))
  {
    if actions == [] {
      RunKeepsInvariant(epoch, []);
    } else {
      var init, a := actions[..|actions| - 1], actions[|actions| - 1];
      var p := PathRun(epoch, queueMax, init);
      PathKeepsInvariant(epoch, queueMax, init);
      match a
      case OnBus(action, nowNs) =>
        if Enabled(p.bus, action) {
          var bus := PathBusIsRun(epoch, queueMax, init);
          if action.Deliver? { DeliveredRefreshAgrees(epoch, bus, action.index); }
          BusStepKeepsPath(p, action, nowNs, queueMax);
        }
      case Subscribe(_, _, _, _) => SubscribeKeepsPath(p, a, queueMax);
      case BadRequest(nowNs) => BadRequestKeepsPath(p, nowNs, queueMax);
      case Send => if p.session.queue != [] { ReadFirst(p.shown, p.session.queue); }
      case Close =>
      case Vanish =>
    }
  }

  /** For every run of publisher, bus, subscription, lag and send steps, on an open session: a client that reads
      everything queued shows the hub's status for a market it follows, and the hub's exact levels where that is
      fresh, if and only if the market does not linger. When nothing is in flight the levels are also the
      publisher's, where its book is fresh. While no lag has lost a needed reply nothing lingers. */
  lemma ViewerIsSound(epoch: nat, queueMax: nat, actions: seq<PathAction>, t: Ticker)
    ensures var p := PathRun(epoch, queueMax, actions);
            var due, books := Eventually(p.shown, p.session), p.bus.consumer.books;
            p.session.Open() && t in p.session.subs ==>
              && (t !in p.lingering
                  <==> StatusIn(due, t) == StatusIn(books, t)
                         && (FreshIn(books, t) ==> due[t].levels == books[t].levels))
              && (t in p.lingering <==> t in due && t !in books)
              && (p.bus.cursor == |p.bus.wire| && t !in p.lingering && FreshIn(due, t)
                  && FreshIn(p.bus.publisher.books, t) ==>
                    due[t].levels == p.bus.publisher.books[t].levels)
              && (p.intact ==> p.lingering == {})
  {
    PathKeepsInvariant(epoch, queueMax, actions);
    var bus := PathBusIsRun(epoch, queueMax, actions);
    CopiesAreSound(epoch, bus, t);
    var p := PathRun(epoch, queueMax, actions);
    if p.session.Open() && t in p.session.subs && t !in p.lingering {
      assert AgreesAt(Eventually(p.shown, p.session), p.bus.consumer.books, t);
    }
  }

  // ------------------------------------------------------------------ a session that never lags

  /** No queue of this run was ever too short. */
  ghost predicate NeverLagged(epoch: nat, queueMax: nat, actions: seq<PathAction>) {
    forall i: nat :: i <= |actions| ==> PathRun(epoch, queueMax, actions[..i]).session.lags == []
  }

  lemma {:induction false} RecentKeepsNow(lags: seq<int>, nowNs: int)
    requires lags != [] && lags[|lags| - 1] == nowNs
    ensures Recent(lags, nowNs) != []
  {
    if nowNs - lags[0] >= LAG_WINDOW_NS { RecentKeepsNow(lags[1..], nowNs); }
  }

  lemma UnlaggedOffer(p: Path, messages: seq<Message>, nowNs: int, queueMax: nat)
    requires AfterOffer(p, messages, nowNs, queueMax).session.lags == []
    ensures AfterOffer(p, messages, nowNs, queueMax).intact == p.intact
  {
    RecentKeepsNow(p.session.lags + [nowNs], nowNs);
  }

  lemma UnlaggedStep(p: Path, a: PathAction, queueMax: nat)
    requires PathNext(p, a, queueMax).session.lags == []
    ensures PathNext(p, a, queueMax).intact == p.intact
  {
    match a
    case OnBus(action, nowNs) =>
      if Enabled(p.bus, action) && !action.Publish? {
        var q := p.(bus := Next(p.bus, action));
        UnlaggedOffer(q.(lingering := q.lingering - q.bus.consumer.books.Keys),
            ForSession(Batch(p.bus.consumer, p.bus.wire[action.index].envelope), p.session.subs), nowNs, queueMax);
      }
    case Subscribe(tickers, directory, maxTickers, nowNs) =>
      var (accepted, rejected) := Judge(Dedupe(tickers), directory, maxTickers);
      var books, previous := p.bus.consumer.books, p.session.subs;
      UnlaggedOffer(p.(session := p.session.(subs := accepted),
                       lingering := LingeringAfter(p.lingering, Eventually(p.shown, p.session), books, previous,
                           accepted)),
                    SubscribeReply(accepted, rejected, previous, books), nowNs, queueMax);
    case BadRequest(nowNs) => UnlaggedOffer(p, [Error], nowNs, queueMax);
    case _ =>
  }

  lemma {:induction false} UnlaggedIsIntact(epoch: nat, queueMax: nat, actions: seq<PathAction>)
    requires NeverLagged(epoch, queueMax, actions)
    ensures PathRun(epoch, queueMax, actions).intact
  {
    if actions != [] {
      var init := actions[..|actions| - 1];
      assert forall i: nat :: i <= |init| ==> init[..i] == actions[..i];
      UnlaggedIsIntact(epoch, queueMax, init);
      assert actions[..|actions|] == actions;
      UnlaggedStep(PathRun(epoch, queueMax, init), actions[|actions| - 1], queueMax);
    }
  }

  /** On every run in which a session never lags, its client, once it has read everything, shows every market it follows
      as the hub holds it, and no other market. */
  lemma UnlaggedViewerIsCurrent(epoch: nat, queueMax: nat, actions: seq<PathAction>, t: Ticker)
    requires NeverLagged(epoch, queueMax, actions)
    ensures var p := PathRun(epoch, queueMax, actions);
            var due, books := Eventually(p.shown, p.session), p.bus.consumer.books;
            p.session.Open() ==>
              if t in p.session.subs then
                StatusIn(due, t) == StatusIn(books, t) && (FreshIn(books, t) ==> due[t].levels == books[t].levels)
              else t !in due
  {
    UnlaggedIsIntact(epoch, queueMax, actions);
    ViewerIsSound(epoch, queueMax, actions, t);
    PathKeepsInvariant(epoch, queueMax, actions);
  }

  // ------------------------------------------------------------------ a run on which an old book lingers

  ghost predicate Reaches(epoch: nat, queueMax: nat, actions: seq<PathAction>, p: Path) {
    PathRun(epoch, queueMax, actions) == p
  }

  lemma OneMore(epoch: nat, queueMax: nat, actions: seq<PathAction>, p: Path, a: PathAction)
    requires Reaches(epoch, queueMax, actions, p)
    ensures Reaches(epoch, queueMax, actions + [a], PathNext(p, a, queueMax))
  {
    assert (actions + [a])[..|actions|] == actions;
  }

  lemma {:induction false} NothingForNobody(batch: seq<Message>)
    ensures ForSession(batch, []) == []
  {
    if batch != [] { NothingForNobody(batch[..|batch| - 1]); }
  }

  /** A session that follows nothing is sent nothing. */
  lemma QuietStep(p: Path, action: Action, queueMax: nat)
    requires Enabled(p.bus, action) && p.session.subs == [] && p.lingering == {}
    ensures PathNext(p, OnBus(action, 0), queueMax) == p.(bus := Next(p.bus, action))
  {
    if action.Deliver? { NothingForNobody(Batch(p.bus.consumer, p.bus.wire[action.index].envelope)); }
  }

  lemma QuietRun(epoch: nat, queueMax: nat, actions: seq<PathAction>, p: Path, action: Action)
    requires Reaches(epoch, queueMax, actions, p) && Enabled(p.bus, action) && p.session.subs == [] && p.lingering == {}
    ensures Reaches(epoch, queueMax, actions + [OnBus(action, 0)], p.(bus := Next(p.bus, action)))
  {
    OneMore(epoch, queueMax, actions, p, OnBus(action, 0));
    QuietStep(p, action, queueMax);
  }

  /** A market's snapshot and its image are published. */
  ghost function WithImage(epoch: nat, t: Ticker, bids: seq<Level>, asks: seq<Level>): System {
    Next(Next(Boot(epoch), Publish(ExchangeSnapshot(t, None, bids, asks))), Publish(RefreshImage(t, None)))
  }

  ghost predicate ImageSent(s: System, epoch: nat, t: Ticker, bids: seq<Level>, asks: seq<Level>) {
    && |s.wire| == 2 && s.wire[0].envelope.epoch == s.wire[1].envelope.epoch == s.publisher.epoch == epoch
    && s.wire[1].envelope.event == ImageOf(t, None, AfterSnapshot(EMPTY_BOOK, bids, asks)) && s.consumer == NEW_FOLLOWER
    && s.cursor == 0
  }

  ghost predicate BookHeld(s: System, epoch: nat, t: Ticker, b: BookState) {
    && s.consumer.books == map[t := b] && AllWellFormed(s.consumer.books)
    && s.consumer.epoch == Some(epoch) && s.publisher.epoch == epoch && s.cursor == |s.wire| == 2
    && forall i :: 0 <= i < |s.wire| ==> s.wire[i].envelope.epoch == epoch
  }

  lemma ImageIsSent(epoch: nat, t: Ticker, bids: seq<Level>, asks: seq<Level>)
    requires ValidSnapshot(bids, asks)
    ensures ImageSent(WithImage(epoch, t, bids, asks), epoch, t, bids, asks)
  {
  }

  /** The snapshot is lost, the image delivered: the hub holds the book. */
  lemma ImageArrives(s: System, epoch: nat, t: Ticker, bids: seq<Level>, asks: seq<Level>)
    requires ValidSnapshot(bids, asks) && ImageSent(s, epoch, t, bids, asks)
    ensures Enabled(s, Deliver(1)) && BookHeld(Next(s, Deliver(1)), epoch, t, AfterSnapshot(EMPTY_BOOK, bids, asks))
  {
    ImageIsHeld(epoch, s.wire[1].envelope, t, bids, asks);
  }

  lemma ImageRun(
      epoch: nat, queueMax: nat, t: Ticker, bids: seq<Level>, asks: seq<Level>) returns (actions: seq<PathAction>)
    ensures Reaches(epoch, queueMax, actions, PathBoot(epoch).(bus := WithImage(epoch, t, bids, asks)))
  {
    var a0, a1 := Publish(ExchangeSnapshot(t, None, bids, asks)), Publish(RefreshImage(t, None));
    var p := PathBoot(epoch);
    assert Reaches(epoch, queueMax, [], p);
    QuietRun(epoch, queueMax, [], p, a0);
    QuietRun(epoch, queueMax, [] + [OnBus(a0, 0)], p.(bus := Next(p.bus, a0)), a1);
    actions := [] + [OnBus(a0, 0)] + [OnBus(a1, 0)];
  }

  lemma ImageIsHeld(epoch: nat, e: Envelope, t: Ticker, bids: seq<Level>, asks: seq<Level>)
    requires ValidSnapshot(bids, asks) && e.epoch == epoch
             && e.event == ImageOf(t, None, AfterSnapshot(EMPTY_BOOK, bids, asks))
    ensures var c := Observed(NEW_FOLLOWER, e);
            c.books == map[t := AfterSnapshot(EMPTY_BOOK, bids, asks)] && AllWellFormed(c.books)
            && c.epoch == Some(epoch)
  {
    var b := AfterSnapshot(EMPTY_BOOK, bids, asks);
    TransitionsKeepWellFormed(EMPTY_BOOK, bids, asks, Bid, Key(0), 0);
    ImageRestores(b, EMPTY_BOOK);
  }

  lemma ImageIsDelivered(
      epoch: nat, queueMax: nat, before: seq<PathAction>, p: Path, t: Ticker, bids: seq<Level>, asks: seq<Level>)
    requires ValidSnapshot(bids, asks) && Reaches(epoch, queueMax, before, p) && ImageSent(p.bus, epoch, t, bids, asks)
    requires p.session.subs == [] && p.lingering == {}
    ensures Enabled(p.bus, Deliver(1))
            && BookHeld(Next(p.bus, Deliver(1)), epoch, t, AfterSnapshot(EMPTY_BOOK, bids, asks))
    ensures Reaches(epoch, queueMax, before + [OnBus(Deliver(1), 0)], p.(bus := Next(p.bus, Deliver(1))))
  {
    ImageArrives(p.bus, epoch, t, bids, asks);
    QuietRun(epoch, queueMax, before, p, Deliver(1));
  }

  lemma BookIsHeld(
      epoch: nat, queueMax: nat, t: Ticker, bids: seq<Level>, asks: seq<Level>)
      returns (actions: seq<PathAction>, p: Path)
    requires ValidSnapshot(bids, asks)
    ensures Reaches(epoch, queueMax, actions, p)
    ensures p.session == Session([], [Hello], [], false, false) && p.shown == map[] && p.lingering == {}
    ensures BookHeld(p.bus, epoch, t, AfterSnapshot(EMPTY_BOOK, bids, asks))
  {
    actions := ImageRun(epoch, queueMax, t, bids, asks);
    ImageIsSent(epoch, t, bids, asks);
    p := PathBoot(epoch).(bus := WithImage(epoch, t, bids, asks));
    ImageIsDelivered(epoch, queueMax, actions, p, t, bids, asks);
    p := p.(bus := Next(p.bus, Deliver(1)));
    actions := actions + [OnBus(Deliver(1), 0)];
  }

  lemma AcceptOne(t: Ticker)
    ensures Dedupe([t]) == [t] && Judge([t], {t}, 1) == ([t], []) && Dedupe([]) == [] && Judge([], {t}, 1) == ([], [])
  {
    assert [t][..0] == [];
  }

  lemma Greeted(p: Path, queueMax: nat)
    requires p.session == Session([], [Hello], [], false, false)
    ensures PathNext(p, Send, queueMax) == p.(session := Session([], [], [], false, false))
  {
    assert [Hello][1..] == [];
  }

  /** A session that followed nothing and has nothing queued follows `t` and reads its snapshot. */
  lemma Follows(
      epoch: nat, queueMax: nat, before: seq<PathAction>, p: Path, t: Ticker)
      returns (actions: seq<PathAction>, q: Path)
    requires Reaches(epoch, queueMax, before, p) && queueMax >= 2 && AllWellFormed(p.bus.consumer.books)
             && t in p.bus.consumer.books
    requires p.session == Session([], [], [], false, false) && p.shown == map[] && p.lingering == {}
    ensures Reaches(epoch, queueMax, actions, q)
    ensures q == p.(session := Session([t], [], [], false, false), shown := map[t := p.bus.consumer.books[t]])
  {
    var books := p.bus.consumer.books;
    var reply := [Subscribed([t], []), SnapshotOf(books, t)];
    AcceptOne(t);
    assert [t][..0] == [] && NewSnapshots([t], [], books) == [SnapshotOf(books, t)];
    OneMore(epoch, queueMax, before, p, Subscribe([t], {t}, 1, 0));
    q := p.(session := Session([t], reply, [], false, false));
    assert [] + reply == reply && SubscribeReply([t], [], [], books) == reply;
    OneMore(epoch, queueMax, before + [Subscribe([t], {t}, 1, 0)], q, Send);
    q := q.(session := Session([t], [SnapshotOf(books, t)], [], false, false));
    assert reply[1..] == [SnapshotOf(books, t)];
    OneMore(epoch, queueMax, before + [Subscribe([t], {t}, 1, 0)] + [Send], q, Send);
    ReadSnapshot(map[], books, t);
    actions := before + [Subscribe([t], {t}, 1, 0)] + [Send] + [Send];
    q := q.(session := Session([t], [], [], false, false), shown := map[t := books[t]]);
    assert [SnapshotOf(books, t)][1..] == [];
  }

  /** It leaves `t` again; the reply stays queued. */
  lemma Leaves(epoch: nat, queueMax: nat, before: seq<PathAction>, p: Path, t: Ticker)
    requires Reaches(epoch, queueMax, before, p) && queueMax >= 2 && p.session == Session([t], [], [], false, false)
             && p.lingering == {}
    ensures Reaches(epoch, queueMax, before + [Subscribe([], {t}, 1, 0)],
            p.(session := Session([], [Subscribed([], [])], [], false, false)))
  {
    AcceptOne(t);
    OneMore(epoch, queueMax, before, p, Subscribe([], {t}, 1, 0));
    assert [] + [Subscribed([], [])] == [Subscribed([], [])] && [Subscribed([], [])] + [] == [Subscribed([], [])];
  }

  function Errors(n: nat): seq<Message> {
    if n == 0 then [] else Errors(n - 1) + [Error]
  }

  lemma {:induction false} ErrorsAreMany(n: nat)
    ensures |Errors(n)| == n
  {
    if n > 0 { ErrorsAreMany(n - 1); }
  }

  /** Bad requests fill the queue behind the reply. */
  lemma {:induction false} Fills(
      epoch: nat, queueMax: nat, before: seq<PathAction>, p: Path, n: nat) returns (actions: seq<PathAction>)
    requires Reaches(epoch, queueMax, before, p) && n < queueMax
    requires p.session == Session([], [Subscribed([], [])], [], false, false) && p.lingering == {}
    ensures Reaches(epoch, queueMax, actions,
            p.(session := Session([], [Subscribed([], [])] + Errors(n), [], false, false)))
  {
    if n == 0 {
      actions := before;
      assert [Subscribed([], [])] + [] == [Subscribed([], [])];
    } else {
      var earlier := Fills(epoch, queueMax, before, p, n - 1);
      var q := p.(session := Session([], [Subscribed([], [])] + Errors(n - 1), [], false, false));
      ErrorsAreMany(n - 1);
      OneMore(epoch, queueMax, earlier, q, BadRequest(0));
      OneErrorFits(q, n, queueMax);
      actions := earlier + [BadRequest(0)];
    }
  }

  lemma OneErrorFits(q: Path, n: nat, queueMax: nat)
    requires 0 < n < queueMax && q.session == Session([], [Subscribed([], [])] + Errors(n - 1), [], false, false)
             && q.lingering == {}
    ensures PathNext(q, BadRequest(0), queueMax) ==
            q.(session := Session([], [Subscribed([], [])] + Errors(n), [], false, false))
  {
    ErrorsAreMany(n - 1);
    assert [Subscribed([], [])] + Errors(n - 1) + [Error] == [Subscribed([], [])] + Errors(n);
  }

  lemma FirstLag()
    ensures Recent([] + [0], 0) == [0]
  {
    assert [] + [0] == [0];
  }

  lemma ErrorIsKept()
    ensures Replies([Error]) == [Error] && !HasSubscribed([Error])
  {
    assert [Error][..0] == [];
  }

  lemma OneErrorTooMany(s: Session, books: Books, queueMax: nat)
    requires queueMax >= 1 && |s.queue| == queueMax && s.subs == [] && s.lags == [] && s.Open()
    ensures Lags(s, [Error], queueMax) && Offered(s, [Error], books, 0, queueMax) == s.(queue := [Error], lags := [0])
  {
    FirstLag();
    ErrorIsKept();
    assert [Error] + [] == [Error];
  }

  /** One more does not fit: the lag discards the reply, and the `error` replaces it. */
  lemma OneErrorLags(q: Path, queueMax: nat)
    requires queueMax >= 1 && q.session == Session([], [Subscribed([], [])] + Errors(queueMax - 1), [], false, false)
    ensures PathNext(q, BadRequest(0), queueMax) ==
              q.(session := Session([], [Error], [0], false, false), lingering := {}, intact := q.intact
                  && Tidy(q.shown, []))
  {
    ErrorsAreMany(queueMax - 1);
    ErrorIsKept();
    OneErrorTooMany(q.session, q.bus.consumer.books, queueMax);
  }

  /** The recorder restarts and announces something; the hub drops the book. */
  lemma Restarts(
      epoch: nat, queueMax: nat, before: seq<PathAction>, p: Path, next: nat)
      returns (actions: seq<PathAction>, q: Path)
    requires Reaches(epoch, queueMax, before, p) && p.session.subs == [] && p.lingering == {} && next != epoch
    requires p.bus.publisher.epoch == epoch && p.bus.cursor == |p.bus.wire| && p.bus.consumer.epoch == Some(epoch)
    requires forall i :: 0 <= i < |p.bus.wire| ==> p.bus.wire[i].envelope.epoch == epoch
    ensures Reaches(epoch, queueMax, actions, q)
    ensures q == p.(bus := q.bus) && q.bus.consumer.books == map[]
  {
    QuietRun(epoch, queueMax, before, p, Publish(Restart(next)));
    q := p.(bus := Next(p.bus, Publish(Restart(next))));
    QuietRun(epoch, queueMax, before + [OnBus(Publish(Restart(next)), 0)], q, Publish(Announce(Control)));
    q := q.(bus := Next(q.bus, Publish(Announce(Control))));
    actions := before + [OnBus(Publish(Restart(next)), 0)] + [OnBus(Publish(Announce(Control)), 0)];
    QuietRun(epoch, queueMax, actions, q, Deliver(|p.bus.wire|));
    actions := actions + [OnBus(Deliver(|p.bus.wire|), 0)];
    q := q.(bus := Next(q.bus, Deliver(|p.bus.wire|)));
  }

  lemma FollowingReply(t: Ticker, queueMax: nat)
    requires queueMax >= 2
    ensures SubscribeReply([t], [], [], map[]) == [Subscribed([t], [])]
    ensures Offered(Session([t], [Error], [0], false, false), [Subscribed([t], [])], map[], 0, queueMax)
            == Session([t], [Error, Subscribed([t], [])], [0], false, false)
    ensures !Lags(Session([t], [Error], [0], false, false), [Subscribed([t], [])], queueMax)
  {
    assert [t][..0] == [] && SnapshotIfHeld(map[], t) == [] && NewSnapshots([], [], map[]) == [];
    assert NewSnapshots([t], [], map[]) == [];
    assert [Subscribed([t], [])] + [] == [Subscribed([t], [])];
    assert [Error] + [Subscribed([t], [])] == [Error, Subscribed([t], [])];
  }

  lemma ReadTwo(shown: Books, t: Ticker)
    requires shown.Keys == {t}
    ensures ReadAll(shown, [Error]) == shown && ReadAll(shown, [Error, Subscribed([t], [])]) == shown
  {
    ReadOne(shown, Error);
    ReadAppend(shown, [Error], [Subscribed([t], [])]);
    ReadOne(shown, Subscribed([t], []));
    assert [Error] + [Subscribed([t], [])] == [Error, Subscribed([t], [])];
  }

  /** The session follows `t` again: it shows the book it left, of which the hub knows nothing. */
  lemma Lingers(q: Path, queueMax: nat, t: Ticker, b: BookState)
    requires queueMax >= 2 && q.session == Session([], [Error], [0], false, false) && q.shown == map[t := b]
             && q.bus.consumer.books == map[]
    ensures var r := PathNext(q, Subscribe([t], {t}, 1, 0), queueMax);
            && r.session == Session([t], [Error, Subscribed([t], [])], [0], false, false) && r.lingering == {t}
            && r.shown == q.shown && r.bus == q.bus && Eventually(r.shown, r.session) == map[t := b]
  {
    AcceptOne(t);
    FollowingReply(t, queueMax);
    ReadTwo(q.shown, t);
    assert LingeringAfter(q.lingering, q.shown, map[], [], [t]) == {t};
  }

  /** A client that followed `t` and left it, its reply lost to a lag of `error` replies, shows the book still. */
  lemma ReplyIsLost(
      epoch: nat, queueMax: nat, before: seq<PathAction>, p: Path, t: Ticker) returns (actions: seq<PathAction>)
    requires Reaches(epoch, queueMax, before, p) && queueMax >= 2 && p.session == Session([t], [], [], false, false)
             && p.lingering == {}
    ensures Reaches(epoch, queueMax, actions,
            p.(session := Session([], [Error], [0], false, false), intact := p.intact && Tidy(p.shown, [])))
  {
    Leaves(epoch, queueMax, before, p, t);
    var left := p.(session := Session([], [Subscribed([], [])], [], false, false));
    actions := Fills(epoch, queueMax, before + [Subscribe([], {t}, 1, 0)], left, queueMax - 1);
    var full := p.(session := Session([], [Subscribed([], [])] + Errors(queueMax - 1), [], false, false));
    OneMore(epoch, queueMax, actions, full, BadRequest(0));
    OneErrorLags(full, queueMax);
    actions := actions + [BadRequest(0)];
  }

  lemma BookIsShown(
      epoch: nat, queueMax: nat, t: Ticker, bids: seq<Level>, asks: seq<Level>)
      returns (actions: seq<PathAction>, p: Path)
    requires ValidSnapshot(bids, asks) && queueMax >= 2
    ensures Reaches(epoch, queueMax, actions, p)
    ensures p.session == Session([t], [], [], false, false)
            && p.shown == map[t := AfterSnapshot(EMPTY_BOOK, bids, asks)] && p.lingering == {}
    ensures BookHeld(p.bus, epoch, t, AfterSnapshot(EMPTY_BOOK, bids, asks))
  {
    actions, p := BookIsHeld(epoch, queueMax, t, bids, asks);
    OneMore(epoch, queueMax, actions, p, Send);
    Greeted(p, queueMax);
    p := p.(session := Session([], [], [], false, false));
    actions, p := Follows(epoch, queueMax, actions + [Send], p, t);
  }

  /** Lingering is real. For every queue bound of two or more, every market and every snapshot of it there is a run
      from the beginning on which a client follows the market, leaves it, loses the reply to a lag of `error`
      replies, and follows it again once the hub has dropped the book: the session is open, and everything it will
      be sent leaves the client showing the old book. */
  lemma LostReplyLeavesOldBook(
      epoch: nat, next: nat, queueMax: nat, t: Ticker, bids: seq<Level>, asks: seq<Level>)
      returns (actions: seq<PathAction>, p: Path)
    requires queueMax >= 2 && ValidSnapshot(bids, asks) && next != epoch
    ensures PathRun(epoch, queueMax, actions) == p
    ensures p.session.Open() && p.session.subs == [t] && p.lingering == {t} && p.bus.consumer.books == map[]
    ensures Eventually(p.shown, p.session) == map[t := AfterSnapshot(EMPTY_BOOK, bids, asks)]
    ensures !AgreesAt(Eventually(p.shown, p.session), p.bus.consumer.books, t)
  {
    actions, p := BookIsShown(epoch, queueMax, t, bids, asks);
    actions := ReplyIsLost(epoch, queueMax, actions, p, t);
    p := p.(session := Session([], [Error], [0], false, false), intact := p.intact && Tidy(p.shown, []));
    actions, p := Restarts(epoch, queueMax, actions, p, next);
    Lingers(p, queueMax, t, AfterSnapshot(EMPTY_BOOK, bids, asks));
    OneMore(epoch, queueMax, actions, p, Subscribe([t], {t}, 1, 0));
    actions := actions + [Subscribe([t], {t}, 1, 0)];
    p := PathNext(p, Subscribe([t], {t}, 1, 0), queueMax);
  }
}
