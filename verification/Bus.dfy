/** The lossy, numbered bus and the consumer that rebuilds the publisher's books from it:
    `src/tape/bus/envelope.py` and `src/tape/bus/livebooks.py`. */
module Bus {
  import opened Prelude
  import opened OrderBook

  datatype Event =
    | BookRefresh(ticker: Ticker, ts: Option<int>, stale: bool, bids: seq<Level>, asks: seq<Level>)
    | BookSnapshot(ticker: Ticker, ts: Option<int>, bids: seq<Level>, asks: seq<Level>)
    | BookDelta(ticker: Ticker, ts: Option<int>, side: Side, price: Price, delta: int)
    | MarketPrint(ticker: Ticker)              // a trade or a ticker update
    | Catalog(markets: set<Ticker>)
    | Control                                  // gaps, lifecycle events, status reports
  {
    predicate IsBook() { BookRefresh? || BookSnapshot? || BookDelta? }
  }

  datatype Envelope = Envelope(epoch: nat, seqNo: nat, event: Event)

  const FIRST_BUS_SEQ: nat := 1

  datatype Status = Unknown | Fresh | Stale
  datatype ResetReason = Start | NewEpoch | Gap
  datatype StatusChange = StatusChange(ticker: Ticker, before: Status, after: Status)
  datatype Observation = Observation(reset: Option<ResetReason>, missed: int, applied: bool, changes: seq<StatusChange>)

  type Books = map<Ticker, BookState>

  /** A consumer's state as a value. */
  datatype Follower = Follower(books: Books, epoch: Option<nat>, lastSeq: Option<nat>)

  const NEW_FOLLOWER := Follower(map[], None, None)

  function StatusIn(books: Books, t: Ticker): Status {
    if t !in books then Unknown else if books[t].stale then Stale else Fresh
  }

  // ------------------------------------------------------------------ the consumer rule

  ghost function ResetBy(f: Follower, e: Envelope): Option<ResetReason> {
    if f.epoch.None? || f.lastSeq.None? then Some(Start)
    else if e.epoch != f.epoch.value then Some(NewEpoch)
    else if e.seqNo != f.lastSeq.value + 1 then Some(Gap)
    else None
  }

  ghost function MissedBy(f: Follower, e: Envelope): int {
    match ResetBy(f, e)
    case Some(NewEpoch) => e.seqNo - FIRST_BUS_SEQ
    case Some(Gap) => Max(e.seqNo - f.lastSeq.value - 1, 0)
    case _ => 0
  }

  ghost function Held(f: Follower, e: Envelope): Books {
    if ResetBy(f, e).Some? then map[] else f.books
  }

  /** A book after a snapshot or delta, whether that broke an invariant, and whether it was applied. */
  ghost function Altered(b: BookState, e: Event): BookState {
    match e
    case BookSnapshot(_, _, bids, asks) => AfterSnapshot(b, bids, asks)
    case BookDelta(_, _, side, price, delta) => AfterDelta(b, side, price, delta)
    case _ => b
  }

  ghost predicate Breaks(b: BookState, e: Event) {
    match e
    case BookSnapshot(_, _, bids, asks) => !ValidSnapshot(bids, asks)
    case BookDelta(_, _, side, price, delta) => DeltaVerdict(b, side, price, delta) == Broken
    case _ => false
  }

  ghost predicate Takes(b: BookState, e: Event) {
    match e
    case BookSnapshot(_, _, bids, asks) => ValidSnapshot(bids, asks)
    case BookDelta(_, _, side, price, delta) => DeltaVerdict(b, side, price, delta) == Applied
    case _ => false
  }

  ghost function Adopted(e: Event): BookState
    requires e.BookRefresh?
  {
    AfterSnapshot(EMPTY_BOOK, e.bids, e.asks).(stale := e.stale)
  }

  ghost function AfterEvent(books: Books, e: Event): Books {
    if !e.IsBook() then books
    else if e.BookRefresh? then
      if ValidSnapshot(e.bids, e.asks) then books[e.ticker := Adopted(e)] else books - {e.ticker}
    else if e.ticker !in books then books
    else if Breaks(books[e.ticker], e) then books - {e.ticker}
    else books[e.ticker := Altered(books[e.ticker], e)]
  }

  ghost predicate AppliedTo(books: Books, e: Event) {
    && e.IsBook()
    && if e.BookRefresh? then ValidSnapshot(e.bids, e.asks) else e.ticker in books && Takes(books[e.ticker], e)
  }

  ghost function Observed(f: Follower, e: Envelope): Follower {
    Follower(AfterEvent(Held(f, e), e.event), Some(e.epoch), Some(e.seqNo))
  }

  function DropChanges(keys: seq<Ticker>, books: Books): seq<StatusChange> {
    if keys == [] then [] else
      var t := keys[|keys| - 1];
      DropChanges(keys[..|keys| - 1], books) + [StatusChange(t, StatusIn(books, t), Unknown)]
  }

  ghost function EventChanges(before: Books, e: Event): seq<StatusChange> {
    if !e.IsBook() then [] else
      var was, now := StatusIn(before, e.ticker), StatusIn(AfterEvent(before, e), e.ticker);
      if was == now then [] else [StatusChange(e.ticker, was, now)]
  }

  ghost function ChangesBy(f: Follower, e: Envelope): seq<StatusChange> {
    (if ResetBy(f, e).Some? then DropChanges(Sorted(f.books.Keys), f.books) else []) +
    EventChanges(Held(f, e), e.event)
  }

  ghost predicate AllWellFormed(books: Books) {
    forall t :: t in books ==> books[t].WellFormed()
  }

  lemma ObservedIsWellFormed(f: Follower, e: Envelope)
    requires AllWellFormed(f.books)
    ensures AllWellFormed(Observed(f, e).books)
  {
    var held := Held(f, e);
    forall t | t in Observed(f, e).books ensures Observed(f, e).books[t].WellFormed() {
      match e.event
      case BookRefresh(t', _, _, bids, asks) =>
        if t == t' { TransitionsKeepWellFormed(EMPTY_BOOK, bids, asks, Bid, Key(0), 0); }
      case BookSnapshot(t', _, bids, asks) =>
        if t == t' { TransitionsKeepWellFormed(held[t], bids, asks, Bid, Key(0), 0); }
      case BookDelta(t', _, side, price, delta) =>
        if t == t' { TransitionsKeepWellFormed(held[t], [], [], side, price, delta); }
      case _ =>
    }
  }

  // ------------------------------------------------------------------ every change, once

  /** The status a reader of `changes` believes a market has, or `None` if a change it reads does
      not start from that belief. */
  ghost function Believed(changes: seq<StatusChange>, t: Ticker, before: Status): Option<Status> {
    if changes == [] then Some(before) else
      var last := changes[|changes| - 1];
      var so := Believed(changes[..|changes| - 1], t, before);
      if last.ticker != t then so
      else if so == Some(last.before) then Some(last.after)
      else None
  }

  lemma {:induction false} BelievedAppend(a: seq<StatusChange>, b: seq<StatusChange>, t: Ticker, before: Status)
    requires Believed(a, t, before).Some?
    ensures Believed(a + b, t, before) == Believed(b, t, Believed(a, t, before).value)
  {
    if b == [] {
      assert a + b == a;
    } else {
      BelievedAppend(a, b[..|b| - 1], t, before);
      assert (a + b)[..|a + b| - 1] == a + b[..|b| - 1];
    }
  }

  lemma {:induction false} DropsBelieved(keys: seq<Ticker>, books: Books, t: Ticker)
    requires Ascending(keys) && forall k :: k in keys ==> k in books
    ensures Believed(DropChanges(keys, books), t, StatusIn(books, t)) ==
            Some(if t in keys then Unknown else StatusIn(books, t))
    ensures forall c :: c in DropChanges(keys, books) ==> c.before != c.after
  {
    if keys != [] {
      var init, k := keys[..|keys| - 1], keys[|keys| - 1];
      DropsBelieved(init, books, t);
      assert keys == init + [k];
      assert k !in init;
      var drops := DropChanges(keys, books);
      assert drops[..|drops| - 1] == DropChanges(init, books);
      assert k in keys;
    }
  }

  lemma ResetBelieved(f: Follower, e: Envelope, t: Ticker)
    ensures var drops := if ResetBy(f, e).Some? then DropChanges(Sorted(f.books.Keys), f.books) else [];
            && Believed(drops, t, StatusIn(f.books, t)) == Some(StatusIn(Held(f, e), t))
            && forall c :: c in drops ==> c.before != c.after
  {
    if ResetBy(f, e).Some? {
      DropsBelieved(Sorted(f.books.Keys), f.books, t);
      assert t in Sorted(f.books.Keys) <==> t in f.books.Keys;
    }
  }

  lemma EventBelieved(held: Books, e: Event, t: Ticker)
    ensures Believed(EventChanges(held, e), t, StatusIn(held, t)) == Some(StatusIn(AfterEvent(held, e), t))
    ensures forall c :: c in EventChanges(held, e) ==> c.before != c.after
  {
    var tail := EventChanges(held, e);
    if tail != [] { assert tail[..0] == []; }
    if !e.IsBook() || e.ticker != t {
      assert t in AfterEvent(held, e) <==> t in held;
      assert t in held ==> AfterEvent(held, e)[t] == held[t];
    }
  }

  /** A snapshot or delta that reaches no book: of a market unknown, or a delta of one that is stale. */
  ghost predicate ReachesNone(books: Books, e: Event) {
    || (e.BookSnapshot? && StatusIn(books, e.ticker) == Unknown)
    || (e.BookDelta? && StatusIn(books, e.ticker) != Fresh)
  }

  /** What was not applied though it reached a book, and every image refused, broke an invariant. */
  ghost predicate BreaksBook(books: Books, e: Event) {
    e.IsBook() && !AppliedTo(books, e) && !ReachesNone(books, e)
  }

  lemma UntakenMeans(books: Books, e: Event)
    requires (e.BookSnapshot? || e.BookDelta?) && e.ticker in books
    ensures BreaksBook(books, e) <==> Breaks(books[e.ticker], e)
    ensures ReachesNone(books, e) <==> !Breaks(books[e.ticker], e) && !Takes(books[e.ticker], e)
  {
  }

  function CountIf(c: bool): nat { if c then 1 else 0 }

  /** Read in order, an observation's changes take every market from the status it had to the
      status it has: none is missed, repeated or invented. */
  lemma EveryChangeIsReportedOnce(f: Follower, e: Envelope, t: Ticker)
    ensures Believed(ChangesBy(f, e), t, StatusIn(f.books, t)) == Some(StatusIn(Observed(f, e).books, t))
    ensures forall c :: c in ChangesBy(f, e) ==> c.before != c.after
  {
    var drops := if ResetBy(f, e).Some? then DropChanges(Sorted(f.books.Keys), f.books) else [];
    ResetBelieved(f, e, t);
    EventBelieved(Held(f, e), e.event, t);
    BelievedAppend(drops, EventChanges(Held(f, e), e.event), t, StatusIn(f.books, t));
  }

  // ------------------------------------------------------------------ the publisher

  /** `SequencedPublisher`: a number is spent on every attempt, whether or not anything leaves. */
  class SequencedPublisher {
    const epoch: nat
    var lastSeq: nat
    var failures: nat

    constructor (epoch: nat)
      ensures this.epoch == epoch && lastSeq == FIRST_BUS_SEQ - 1 && failures == 0
    {
      this.epoch := epoch;
      lastSeq, failures := FIRST_BUS_SEQ - 1, 0;
    }

    /** `transportFails` stands for an encoder or transport that raised. */
    method Publish(event: Event, transportFails: bool) returns (sent: Option<Envelope>)
      modifies this
      ensures lastSeq == old(lastSeq) + 1
      ensures sent == if transportFails then None else Some(Envelope(epoch, lastSeq, event))
      ensures failures == old(failures) + if transportFails then 1 else 0
    {
      lastSeq := lastSeq + 1;
      if transportFails {
        failures := failures + 1;
        return None;
      }
      return Some(Envelope(epoch, lastSeq, event));
    }
  }

  /** The recorder as the bus sees it: its books, and the numbers it has spent. */
  datatype Publisher = Publisher(epoch: nat, seqNo: nat, books: Books)

  datatype PublisherStep =
    | ExchangeSnapshot(ticker: Ticker, ts: Option<int>, bids: seq<Level>, asks: seq<Level>)
    | ExchangeDelta(ticker: Ticker, ts: Option<int>, side: Side, price: Price, delta: int)
    | GoStale(ticker: Ticker)                  // a gap, a disconnect: nothing is published
    | DropBook(ticker: Ticker)                 // the market left the universe
    | RefreshImage(ticker: Ticker, ts: Option<int>)
    | Announce(event: Event)                   // anything that is not about a book
    | Restart(epoch: nat)

  ghost function BookOf(books: Books, t: Ticker): BookState {
    if t in books then books[t] else EMPTY_BOOK
  }

  ghost function ImageOf(t: Ticker, ts: Option<int>, b: BookState): Event {
    BookRefresh(t, ts, b.stale, BestFirst(b.levels.bids, Bid), BestFirst(b.levels.asks, Ask))
  }

  ghost function BooksAfter(p: Publisher, s: PublisherStep): Books {
    match s
    case ExchangeSnapshot(t, _, bids, asks) => p.books[t := AfterSnapshot(BookOf(p.books, t), bids, asks)]
    case ExchangeDelta(t, _, side, price, delta) =>
      if t in p.books then p.books[t := AfterDelta(p.books[t], side, price, delta)] else p.books
    case GoStale(t) => if t in p.books then p.books[t := p.books[t].(stale := true)] else p.books
    case DropBook(t) => p.books - {t}
    case Restart(_) => map[]
    case _ => p.books
  }

  /** A snapshot or delta is published only once applied; a refused one stales the book silently. */
  ghost function Emitted(p: Publisher, s: PublisherStep): Option<Event> {
    match s
    case ExchangeSnapshot(t, ts, bids, asks) => if ValidSnapshot(bids, asks)
        then Some(BookSnapshot(t, ts, bids, asks)) else None
    case ExchangeDelta(t, ts, side, price, delta) =>
      if t in p.books && DeltaVerdict(p.books[t], side, price, delta) == Applied
          then Some(BookDelta(t, ts, side, price, delta)) else None
    case RefreshImage(t, ts) => if t in p.books then Some(ImageOf(t, ts, p.books[t])) else None
    case Announce(e) => if e.IsBook() then None else Some(e)
    case _ => None
  }

  ghost function PublisherNext(p: Publisher, s: PublisherStep): Publisher {
    match s
    case Restart(epoch) => Publisher(epoch, 0, map[])
    case _ => Publisher(p.epoch, p.seqNo + (if Emitted(p, s).Some? then 1 else 0), BooksAfter(p, s))
  }

  // ------------------------------------------------------------------ publisher, bus and consumer together

  /** One message ever attempted, with the publisher's books as of that attempt. */
  datatype Sent = Sent(envelope: Envelope, books: Books)

  /** `cursor` messages are behind the consumer: observed, or lost for good. */
  datatype System = System(publisher: Publisher, wire: seq<Sent>, cursor: nat, consumer: Follower)

  datatype Action =
    | Publish(step: PublisherStep)
    | Deliver(index: nat)                      // every message between the cursor and `index` is lost

  ghost predicate UnusedEpoch(s: System, epoch: nat) {
    epoch != s.publisher.epoch && forall i :: 0 <= i < |s.wire| ==> s.wire[i].envelope.epoch != epoch
  }

  ghost predicate Enabled(s: System, a: Action) {
    match a
    case Publish(Restart(epoch)) => UnusedEpoch(s, epoch)
    case Publish(_) => true
    case Deliver(k) => s.cursor <= k < |s.wire|
  }

  ghost function Next(s: System, a: Action): System
    requires Enabled(s, a)
  {
    match a
    case Publish(step) =>
      var p := PublisherNext(s.publisher, step);
      var e := Emitted(s.publisher, step);
      s.(publisher := p,
          wire := if e.Some? then s.wire + [Sent(Envelope(p.epoch, p.seqNo, e.value), p.books)] else s.wire)
    case Deliver(k) =>
      s.(cursor := k + 1, consumer := Observed(s.consumer, s.wire[k].envelope))
  }

  ghost function Boot(epoch: nat): System {
    System(Publisher(epoch, 0, map[]), [], 0, NEW_FOLLOWER)
  }

  /** The state after any sequence of actions; an action that is not possible does nothing. */
  ghost function Run(epoch: nat, actions: seq<Action>): System {
    if actions == [] then Boot(epoch) else
      var s := Run(epoch, actions[..|actions| - 1]);
      var a := actions[|actions| - 1];
      if Enabled(s, a) then Next(s, a) else s
  }

  // ------------------------------------------------------------------ what every run keeps

  ghost predicate FreshIn(books: Books, t: Ticker) {
    t in books && !books[t].stale
  }

  /** What a copy promises about the original. */
  ghost predicate CoherentAt(copies: Books, originals: Books, t: Ticker) {
    t in copies ==>
      && (copies[t].stale ==> !FreshIn(originals, t))
      && (!copies[t].stale && FreshIn(originals, t) ==> copies[t].levels == originals[t].levels)
  }

  ghost predicate Coherent(copies: Books, originals: Books) {
    forall t :: t in copies ==> CoherentAt(copies, originals, t)
  }

  /** Without a message a book can only lose its freshness. */
  ghost predicate NotFresher(before: Books, after: Books) {
    forall t :: FreshIn(after, t) ==> FreshIn(before, t) && after[t] == before[t]
  }

  ghost predicate IsImage(e: Event, books: Books) {
    e.BookRefresh? ==> e.ticker in books && e == ImageOf(e.ticker, e.ts, books[e.ticker])
  }

  /** The publisher's books across one message: `before` at the previous message, `after` at this one. */
  ghost predicate Link(before: Books, e: Event, after: Books) {
    match e
    case BookSnapshot(t, _, bids, asks) =>
      && ValidSnapshot(bids, asks)
      && t in after && after[t] == AfterSnapshot(EMPTY_BOOK, bids, asks)
      && NotFresher(before, after - {t})
    case BookDelta(t, _, side, price, delta) =>
      && FreshIn(before, t) && DeltaVerdict(before[t], side, price, delta) == Applied
      && t in after && after[t] == AfterDelta(before[t], side, price, delta)
      && NotFresher(before, after - {t})
    case _ => NotFresher(before, after)
  }

  lemma LinkKeepsCoherent(copies: Books, before: Books, e: Event, after: Books)
    requires AllWellFormed(copies) && AllWellFormed(after)
    requires Coherent(copies, before) && Link(before, e, after) && IsImage(e, after)
    ensures Coherent(AfterEvent(copies, e), after)
  {
    forall t | t in AfterEvent(copies, e) ensures CoherentAt(AfterEvent(copies, e), after, t) {
      if e.IsBook() && e.ticker == t {
        if e.BookRefresh? { ImageRestores(after[t], EMPTY_BOOK); }
      } else {
        assert t in copies && AfterEvent(copies, e)[t] == copies[t];
        assert CoherentAt(copies, before, t);
        assert FreshIn(after, t) ==> FreshIn(before, t) && after[t] == before[t] by {
          if FreshIn(after, t) && (e.BookSnapshot? || e.BookDelta?) {
            assert FreshIn(after - {e.ticker}, t);
          }
        }
      }
    }
  }

  /** A copy built from nothing by one message agrees with the image it came from. */
  lemma FirstImageIsCoherent(e: Event, after: Books)
    requires AllWellFormed(after) && IsImage(e, after)
    ensures Coherent(AfterEvent(map[], e), after)
  {
    if e.BookRefresh? { ImageRestores(after[e.ticker], EMPTY_BOOK); }
  }

  lemma DegradedStaysCoherent(copies: Books, before: Books, after: Books)
    requires Coherent(copies, before) && NotFresher(before, after)
    ensures Coherent(copies, after)
  {
    forall t | t in copies ensures CoherentAt(copies, after, t) {
      assert CoherentAt(copies, before, t);
    }
  }

  ghost predicate NumberedInOrder(s: System) {
    && (forall i, j :: 0 <= i < j < |s.wire| && s.wire[i].envelope.epoch == s.wire[j].envelope.epoch ==>
          s.wire[j].envelope.seqNo - s.wire[i].envelope.seqNo == j - i)
    && (forall i :: 0 <= i < |s.wire| && s.wire[i].envelope.epoch == s.publisher.epoch ==>
          s.publisher.seqNo - s.wire[i].envelope.seqNo == |s.wire| - 1 - i)
  }

  ghost predicate LinkedAt(s: System, i: int)
    requires 0 <= i < |s.wire|
  {
    && AllWellFormed(s.wire[i].books)
    && IsImage(s.wire[i].envelope.event, s.wire[i].books)
    && (i > 0 && s.wire[i - 1].envelope.epoch == s.wire[i].envelope.epoch ==>
          Link(s.wire[i - 1].books, s.wire[i].envelope.event, s.wire[i].books))
  }

  /** The books at the newest message, or nothing at all when none was sent. */
  ghost function AtNewest(s: System): Books {
    if s.wire == [] then map[] else s.wire[|s.wire| - 1].books
  }

  ghost predicate ConsumerFollows(s: System) {
    && s.cursor <= |s.wire|
    && AllWellFormed(s.consumer.books)
    && (s.cursor == 0 ==> s.consumer == NEW_FOLLOWER)
    && (s.cursor > 0 ==>
          var seen := s.wire[s.cursor - 1];
          && s.consumer.epoch == Some(seen.envelope.epoch) && s.consumer.lastSeq == Some(seen.envelope.seqNo)
          && Coherent(s.consumer.books, seen.books))
  }

  ghost predicate Invariant(s: System) {
    && AllWellFormed(s.publisher.books)
    && NumberedInOrder(s)
    && (forall i :: 0 <= i < |s.wire| ==> LinkedAt(s, i))
    && NotFresher(AtNewest(s), s.publisher.books)
    && ConsumerFollows(s)
  }

  lemma PublishedBooksWellFormed(p: Publisher, step: PublisherStep)
    requires AllWellFormed(p.books)
    ensures AllWellFormed(PublisherNext(p, step).books)
  {
    forall t | t in PublisherNext(p, step).books ensures PublisherNext(p, step).books[t].WellFormed() {
      match step
      case ExchangeSnapshot(t', _, bids, asks) =>
        if t == t' { TransitionsKeepWellFormed(BookOf(p.books, t), bids, asks, Bid, Key(0), 0); }
      case ExchangeDelta(t', _, side, price, delta) =>
        if t == t' { TransitionsKeepWellFormed(p.books[t], [], [], side, price, delta); }
      case _ =>
    }
  }

  /** What one publisher step may do to its books, given what was true at the newest message. */
  lemma StepLinks(newest: Books, p: Publisher, step: PublisherStep)
    requires NotFresher(newest, p.books)
    requires AllWellFormed(p.books)
    ensures var e, after := Emitted(p, step), PublisherNext(p, step).books;
            if e.Some? then Link(newest, e.value, after) && IsImage(e.value, after) else NotFresher(newest, after)
  {
    var after := PublisherNext(p, step).books;
    match step
    case ExchangeSnapshot(t, _, bids, asks) =>
      assert forall u :: FreshIn(after - {t}, u) ==> FreshIn(p.books, u) && after[u] == p.books[u];
    case ExchangeDelta(t, _, side, price, delta) =>
      if t in p.books {
        TransitionsKeepWellFormed(p.books[t], [], [], side, price, delta);
        assert forall u :: FreshIn(after - {t}, u) ==> FreshIn(p.books, u) && after[u] == p.books[u];
        if DeltaVerdict(p.books[t], side, price, delta) == Applied {
          assert FreshIn(p.books, t);
        }
      }
    case _ =>
  }

  lemma SilentStepKeepsInvariant(s: System, step: PublisherStep)
    requires Invariant(s) && Enabled(s, Publish(step)) && Emitted(s.publisher, step).None?
    ensures Invariant(Next(s, Publish(step)))
  {
    var n := Next(s, Publish(step));
    PublishedBooksWellFormed(s.publisher, step);
    StepLinks(AtNewest(s), s.publisher, step);
    assert n.wire == s.wire;
    forall i | 0 <= i < |s.wire| ensures LinkedAt(n, i) {
      assert LinkedAt(s, i);
    }
  }

  lemma AppendKeepsNumbering(s: System, n: System)
    requires NumberedInOrder(s) && |n.wire| == |s.wire| + 1 && n.wire[..|s.wire|] == s.wire
    requires n.publisher.epoch == s.publisher.epoch && n.publisher.seqNo == s.publisher.seqNo + 1
    requires n.wire[|s.wire|].envelope.epoch == n.publisher.epoch
             && n.wire[|s.wire|].envelope.seqNo == n.publisher.seqNo
    ensures NumberedInOrder(n)
  {
    assert forall i :: 0 <= i < |s.wire| ==> n.wire[i] == s.wire[i];
  }

  lemma SpokenStepKeepsInvariant(s: System, step: PublisherStep)
    requires Invariant(s) && Enabled(s, Publish(step)) && Emitted(s.publisher, step).Some?
    ensures Invariant(Next(s, Publish(step)))
  {
    var n := Next(s, Publish(step));
    PublishedBooksWellFormed(s.publisher, step);
    StepLinks(AtNewest(s), s.publisher, step);
    AppendKeepsNumbering(s, n);
    forall i | 0 <= i < |n.wire| ensures LinkedAt(n, i) {
      if i < |s.wire| {
        assert LinkedAt(s, i) && n.wire[i] == s.wire[i] && (i > 0 ==> n.wire[i - 1] == s.wire[i - 1]);
      }
    }
    assert AtNewest(n) == n.publisher.books;
    assert s.cursor > 0 ==> n.wire[s.cursor - 1] == s.wire[s.cursor - 1];
  }

  lemma DeliverKeepsInvariant(s: System, k: nat)
    requires Invariant(s) && Enabled(s, Deliver(k))
    ensures Invariant(Next(s, Deliver(k)))
  {
    var n := Next(s, Deliver(k));
    var e := s.wire[k].envelope;
    ObservedIsWellFormed(s.consumer, e);
    assert LinkedAt(s, k);
    if ResetBy(s.consumer, e).Some? {
      FirstImageIsCoherent(e.event, s.wire[k].books);
    } else {
      // The numbers follow on, so nothing lies between the last message observed and this one.
      assert s.cursor > 0 && k == s.cursor;
      LinkKeepsCoherent(s.consumer.books, s.wire[k - 1].books, e.event, s.wire[k].books);
    }
    forall i | 0 <= i < |n.wire| ensures LinkedAt(n, i) {
      assert LinkedAt(s, i);
    }
  }

  lemma StepKeepsInvariant(s: System, a: Action)
    requires Invariant(s) && Enabled(s, a)
    ensures Invariant(Next(s, a))
  {
    match a
    case Publish(step) =>
      if Emitted(s.publisher, step).Some? {
        SpokenStepKeepsInvariant(s, step);
      } else {
        SilentStepKeepsInvariant(s, step);
      }
    case Deliver(k) => DeliverKeepsInvariant(s, k);
  }

  lemma {:induction false} RunKeepsInvariant(epoch: nat, actions: seq<Action>)
    ensures Invariant(Run(epoch, actions))
  {
    if actions != [] {
      var s := Run(epoch, actions[..|actions| - 1]);
      var a := actions[|actions| - 1];
      RunKeepsInvariant(epoch, actions[..|actions| - 1]);
      if Enabled(s, a) { StepKeepsInvariant(s, a); }
    }
  }

  /** For every publisher run, every pattern of loss and every restart: a copy held as stale is
      stale or gone at the publisher, and where both are fresh the levels are equal: as of the last
      message observed, and as of now when no later message was attempted. */
  lemma CopiesAreSound(epoch: nat, actions: seq<Action>, t: Ticker)
    ensures var s := Run(epoch, actions);
            && s.cursor <= |s.wire|
            && (s.cursor > 0 ==> CoherentAt(s.consumer.books, s.wire[s.cursor - 1].books, t))
            && (s.cursor == |s.wire| ==> CoherentAt(s.consumer.books, s.publisher.books, t))
  {
    RunKeepsInvariant(epoch, actions);
    var s := Run(epoch, actions);
    if s.cursor > 0 && s.cursor == |s.wire| {
      DegradedStaysCoherent(s.consumer.books, AtNewest(s), s.publisher.books);
    }
  }

  // ------------------------------------------------------------------ every loss is counted

  /** How many of the messages are of the epoch. */
  ghost function OfEpoch(wire: seq<Sent>, epoch: nat): nat {
    if wire == [] then 0 else
      OfEpoch(wire[..|wire| - 1], epoch) + (if wire[|wire| - 1].envelope.epoch == epoch then 1 else 0)
  }

  lemma {:induction false} OfEpochAppend(a: seq<Sent>, b: seq<Sent>, epoch: nat)
    ensures OfEpoch(a + b, epoch) == OfEpoch(a, epoch) + OfEpoch(b, epoch)
  {
    if b == [] {
      assert a + b == a;
    } else {
      OfEpochAppend(a, b[..|b| - 1], epoch);
      assert (a + b)[..|a + b| - 1] == a + b[..|b| - 1];
    }
  }

  lemma {:induction false} NoneOfEpoch(wire: seq<Sent>, epoch: nat)
    requires forall i :: 0 <= i < |wire| ==> wire[i].envelope.epoch != epoch
    ensures OfEpoch(wire, epoch) == 0
  {
    if wire != [] { NoneOfEpoch(wire[..|wire| - 1], epoch); }
  }

  lemma {:induction false} AllOfEpoch(wire: seq<Sent>, epoch: nat)
    requires forall i :: 0 <= i < |wire| ==> wire[i].envelope.epoch == epoch
    ensures OfEpoch(wire, epoch) == |wire|
  {
    if wire != [] { AllOfEpoch(wire[..|wire| - 1], epoch); }
  }

  /** Between two messages of an epoch there is none of another. */
  ghost predicate Unbroken(wire: seq<Sent>) {
    forall i, j, k :: 0 <= i < j < k < |wire| && wire[i].envelope.epoch == wire[k].envelope.epoch ==>
      wire[j].envelope.epoch == wire[k].envelope.epoch
  }

  ghost predicate NumberedFromOne(wire: seq<Sent>) {
    forall i :: 0 <= i < |wire| ==> wire[i].envelope.seqNo == 1 + OfEpoch(wire[..i], wire[i].envelope.epoch)
  }

  ghost predicate StillCurrent(wire: seq<Sent>, epoch: nat) {
    forall i, j :: 0 <= i < j < |wire| && wire[i].envelope.epoch == epoch ==> wire[j].envelope.epoch == epoch
  }

  /** Each epoch's messages follow one another and are numbered from one. */
  ghost predicate Counted(s: System) {
    && Unbroken(s.wire) && NumberedFromOne(s.wire) && StillCurrent(s.wire, s.publisher.epoch)
    && s.publisher.seqNo == OfEpoch(s.wire, s.publisher.epoch)
  }

  lemma RestartKeepsCounted(s: System, epoch: nat)
    requires Counted(s) && Enabled(s, Publish(Restart(epoch)))
    ensures Counted(Next(s, Publish(Restart(epoch))))
  {
    NoneOfEpoch(s.wire, epoch);
  }

  lemma SpeakingKeepsNumbers(wire: seq<Sent>, e: Sent)
    requires NumberedFromOne(wire) && e.envelope.seqNo == 1 + OfEpoch(wire, e.envelope.epoch)
    ensures NumberedFromOne(wire + [e])
  {
    var longer := wire + [e];
    assert longer[..|wire|] == wire;
    forall i | 0 <= i < |longer|
      ensures longer[i].envelope.seqNo == 1 + OfEpoch(longer[..i], longer[i].envelope.epoch)
    {
      if i < |wire| { assert longer[..i] == wire[..i] && longer[i] == wire[i]; }
    }
  }

  lemma SpeakingKeepsCounted(s: System, n: System, e: Sent)
    requires Counted(s) && n.wire == s.wire + [e] && e.envelope.epoch == n.publisher.epoch == s.publisher.epoch
    requires e.envelope.seqNo == n.publisher.seqNo == s.publisher.seqNo + 1
    ensures Counted(n)
  {
    SpeakingKeepsNumbers(s.wire, e);
    assert n.wire[..|s.wire|] == s.wire;
  }

  lemma {:induction false} RunIsCounted(epoch: nat, actions: seq<Action>)
    ensures Counted(Run(epoch, actions))
  {
    if actions != [] {
      var s, a := Run(epoch, actions[..|actions| - 1]), actions[|actions| - 1];
      RunIsCounted(epoch, actions[..|actions| - 1]);
      if Enabled(s, a) && a.Publish? {
        var n, e := Next(s, a), Emitted(s.publisher, a.step);
        if a.step.Restart? {
          RestartKeepsCounted(s, a.step.epoch);
        } else if e.Some? {
          SpeakingKeepsCounted(s, n, n.wire[|s.wire|]);
        }
      }
    }
  }

  lemma SameEpochBetween(wire: seq<Sent>, c: nat, k: nat)
    requires Unbroken(wire) && 0 < c <= k < |wire| && wire[c - 1].envelope.epoch == wire[k].envelope.epoch
    ensures OfEpoch(wire[c..k], wire[k].envelope.epoch) == k - c
  {
    AllOfEpoch(wire[c..k], wire[k].envelope.epoch);
  }

  lemma NewEpochBetween(wire: seq<Sent>, c: nat, k: nat)
    requires Unbroken(wire) && 0 < c <= k < |wire| && wire[c - 1].envelope.epoch != wire[k].envelope.epoch
    ensures OfEpoch(wire[..k], wire[k].envelope.epoch) == OfEpoch(wire[c..k], wire[k].envelope.epoch)
  {
    var epoch := wire[k].envelope.epoch;
    forall i | 0 <= i < c ensures wire[..c][i].envelope.epoch != epoch {
      assert wire[..c][i] == wire[i];
    }
    NoneOfEpoch(wire[..c], epoch);
    assert wire[..k] == wire[..c] + wire[c..k];
    OfEpochAppend(wire[..c], wire[c..k], epoch);
  }

  /** A message `lost` numbers further on than the next, or of another epoch. */
  lemma MissedMeans(f: Follower, e: Envelope, lost: nat)
    requires f.epoch.Some? && f.lastSeq.Some?
    ensures e.epoch == f.epoch.value && e.seqNo == f.lastSeq.value + 1 + lost ==>
              MissedBy(f, e) == lost && ResetBy(f, e) == if lost == 0 then None else Some(Gap)
    ensures e.epoch != f.epoch.value && e.seqNo == 1 + lost ==>
              MissedBy(f, e) == lost && ResetBy(f, e) == Some(NewEpoch)
  {
  }

  /** On every run, whatever is lost and however often the publisher restarts, the consumer says why it resets and
      counts what it missed: nothing before its first message, and after that exactly the messages of the epoch it
      now hears that were sent since and never came. It resets when something is lost or the epoch is another, and at
      no other time. */
  lemma LossIsCounted(epoch: nat, actions: seq<Action>, k: nat)
    requires Enabled(Run(epoch, actions), Deliver(k))
    ensures var s := Run(epoch, actions); var e := s.wire[k].envelope;
            && MissedBy(s.consumer, e) == (if s.cursor == 0 then 0 else OfEpoch(s.wire[s.cursor..k], e.epoch))
            && ResetBy(s.consumer, e) ==
                 if s.cursor == 0 then Some(Start)
                 else if s.wire[s.cursor - 1].envelope.epoch != e.epoch then Some(NewEpoch)
                 else if k > s.cursor then Some(Gap)
                 else None
  {
    RunKeepsInvariant(epoch, actions);
    RunIsCounted(epoch, actions);
    var s := Run(epoch, actions);
    if s.cursor > 0 {
      CountsUp(s, s.cursor - 1, k);
      LossIsCountedAt(s.consumer, s.wire, s.cursor, k);
    }
  }

  lemma CountsUp(s: System, i: nat, k: nat)
    requires NumberedInOrder(s) && i < k < |s.wire|
    ensures s.wire[i].envelope.epoch == s.wire[k].envelope.epoch ==>
              s.wire[k].envelope.seqNo == s.wire[i].envelope.seqNo + (k - i)
  {
  }

  lemma LossIsCountedAt(f: Follower, wire: seq<Sent>, c: nat, k: nat)
    requires Unbroken(wire) && 0 < c <= k < |wire|
    requires f.epoch == Some(wire[c - 1].envelope.epoch) && f.lastSeq == Some(wire[c - 1].envelope.seqNo)
    requires wire[k].envelope.seqNo == 1 + OfEpoch(wire[..k], wire[k].envelope.epoch)
    requires wire[c - 1].envelope.epoch == wire[k].envelope.epoch ==>
               wire[k].envelope.seqNo == wire[c - 1].envelope.seqNo + (k - (c - 1))
    ensures var e := wire[k].envelope;
            && MissedBy(f, e) == OfEpoch(wire[c..k], e.epoch)
            && ResetBy(f, e) ==
                 if wire[c - 1].envelope.epoch != e.epoch then Some(NewEpoch) else if k > c then Some(Gap) else None
  {
    var e := wire[k].envelope;
    if wire[c - 1].envelope.epoch == e.epoch {
      SameEpochBetween(wire, c, k);
      MissedMeans(f, e, k - c);
    } else {
      NewEpochBetween(wire, c, k);
      MissedMeans(f, e, OfEpoch(wire[c..k], e.epoch));
    }
  }

  /** The message is of this market and gives its whole book. */
  ghost predicate Restores(copies: Books, e: Event, t: Ticker) {
    (e.BookSnapshot? && e.ticker == t && t in copies) || (e.BookRefresh? && e.ticker == t)
  }

  lemma LinkedCopyStays(copies: Books, before: Books, e: Event, after: Books, t: Ticker)
    requires AllWellFormed(copies) && AllWellFormed(after)
    requires CoherentAt(copies, before, t) && Link(before, e, after) && IsImage(e, after) && FreshIn(after, t)
    requires FreshIn(copies, t) || Restores(copies, e, t)
    ensures FreshIn(AfterEvent(copies, e), t) && AfterEvent(copies, e)[t].levels == after[t].levels
  {
    if e.IsBook() && e.ticker == t {
      match e
      case BookSnapshot(_, _, _, _) =>
      case BookDelta(_, _, _, _, _) => assert copies[t] == before[t];
      case BookRefresh(_, _, _, _, _) => ImageRestores(after[t], EMPTY_BOOK);
    } else {
      assert AfterEvent(copies, e)[t] == copies[t];
      assert e.BookSnapshot? || e.BookDelta? ==> FreshIn(after - {e.ticker}, t);
      assert FreshIn(before, t) && after[t] == before[t];
    }
  }

  /** And nothing is given up for nothing: through a message that follows on, a fresh copy of a book that is fresh at
      the publisher stays fresh and equal to it, and a snapshot or image of a market makes its copy so. */
  lemma FollowingOnKeepsCopies(epoch: nat, actions: seq<Action>, t: Ticker)
    requires var s := Run(epoch, actions);
             && 0 < s.cursor < |s.wire|
             && s.wire[s.cursor - 1].envelope.epoch == s.wire[s.cursor].envelope.epoch
             && FreshIn(s.wire[s.cursor].books, t)
             && (FreshIn(s.consumer.books, t) || Restores(s.consumer.books, s.wire[s.cursor].envelope.event, t))
    ensures var s := Run(epoch, actions); var copies := Next(s, Deliver(s.cursor)).consumer.books;
            FreshIn(copies, t) && copies[t].levels == s.wire[s.cursor].books[t].levels
  {
    RunKeepsInvariant(epoch, actions);
    FollowingOnKeepsCopy(Run(epoch, actions), t);
  }

  lemma FollowingOnKeepsCopy(s: System, t: Ticker)
    requires Invariant(s) && 0 < s.cursor < |s.wire|
    requires s.wire[s.cursor - 1].envelope.epoch == s.wire[s.cursor].envelope.epoch
             && FreshIn(s.wire[s.cursor].books, t)
             && (FreshIn(s.consumer.books, t) || Restores(s.consumer.books, s.wire[s.cursor].envelope.event, t))
    ensures var copies := Observed(s.consumer, s.wire[s.cursor].envelope).books;
            FreshIn(copies, t) && copies[t].levels == s.wire[s.cursor].books[t].levels
  {
    var seen, e := s.wire[s.cursor - 1], s.wire[s.cursor];
    assert LinkedAt(s, s.cursor);
    assert e.envelope.seqNo - seen.envelope.seqNo == 1;
    assert ResetBy(s.consumer, e.envelope).None?;
    LinkedCopyStays(s.consumer.books, seen.books, e.envelope.event, e.books, t);
  }

  /** An image that replaces a fresh copy by a fresh book changes no level. */
  ghost predicate RefreshAgrees(f: Follower, e: Envelope) {
    ResetBy(f, e).None? && e.event.BookRefresh? && !e.event.stale && FreshIn(f.books, e.event.ticker) ==>
      AfterEvent(f.books, e.event) == f.books
  }

  /** On every run the images the bus delivers have that property; the hub sends nothing for them. */
  lemma DeliveredRefreshAgrees(epoch: nat, actions: seq<Action>, k: nat)
    requires Enabled(Run(epoch, actions), Deliver(k))
    ensures RefreshAgrees(Run(epoch, actions).consumer, Run(epoch, actions).wire[k].envelope)
  {
    RunKeepsInvariant(epoch, actions);
    var s := Run(epoch, actions);
    var e := s.wire[k].envelope;
    assert LinkedAt(s, k);
    if ResetBy(s.consumer, e).None? && e.event.BookRefresh? && !e.event.stale
        && FreshIn(s.consumer.books, e.event.ticker) {
      var t := e.event.ticker;
      assert s.cursor > 0 && k == s.cursor;
      assert FreshIn(s.wire[k].books, t);
      assert CoherentAt(s.consumer.books, s.wire[k - 1].books, t);
      ImageRestores(s.wire[k].books[t], EMPTY_BOOK);
      assert AfterEvent(s.consumer.books, e.event) == s.consumer.books;
    }
  }

  /** The next image of a book settles its copy: it takes the image's freshness and levels, or is
      dropped because the image is crossed, which only a stale book's can be. */
  lemma ImageSettlesCopy(f: Follower, e: Envelope, t: Ticker, ts: Option<int>, b: BookState)
    requires b.WellFormed() && e.event == ImageOf(t, ts, b)
    ensures StatusIn(Observed(f, e).books, t) ==
            if Crossed(b.levels) then Unknown else if b.stale then Stale else Fresh
    ensures t in Observed(f, e).books ==> Observed(f, e).books[t] == b
    ensures b.stale ==> StatusIn(Observed(f, e).books, t) != Fresh
  {
    ImageRestores(b, EMPTY_BOOK);
  }

  // ------------------------------------------------------------------ the mutable consumer

  lemma PutThenDrop(books: Books, t: Ticker, b: BookState)
    ensures books[t := b] - {t} == books - {t}
  {
  }

  class LiveBooks {
    var books: map<Ticker, Book>
    var epoch: Option<nat>
    var lastSeq: Option<nat>
    var messages: nat
    var resets: nat
    var missed: int
    var refreshes: nat
    var ignored: nat
    var bookErrors: nat
    ghost var repr: set<Book>

    ghost predicate Valid()
      reads this`books, this`repr, repr
    {
      forall t :: t in books ==> books[t] in repr && books[t].Valid() && books[t].ticker == t
    }

    ghost function Copies(): Books
      requires Valid()
      reads this`books, this`repr, repr
    {
      map t | t in books :: books[t].View()
    }

    ghost function View(): Follower
      requires Valid()
      reads this`books, this`repr, this`epoch, this`lastSeq, repr
    {
      Follower(Copies(), epoch, lastSeq)
    }

    constructor ()
      ensures Valid() && View() == NEW_FOLLOWER && repr == {}
      ensures messages == 0 && resets == 0 && missed == 0 && refreshes == 0 && ignored == 0 && bookErrors == 0
    {
      books, epoch, lastSeq := map[], None, None;
      messages, resets, missed, refreshes, ignored, bookErrors := 0, 0, 0, 0, 0, 0;
      repr := {};
    }

    function StatusOf(t: Ticker): Status
      requires Valid()
      reads this`books, this`repr, repr
    {
      if t !in books then Unknown else if books[t].stale then Stale else Fresh
    }

    method Observe(e: Envelope) returns (o: Observation)
      requires Valid()
      modifies this, repr
      ensures Valid() && fresh(repr - old(repr))
      ensures View() == Observed(old(View()), e)
      ensures o.reset == ResetBy(old(View()), e) && o.missed == MissedBy(old(View()), e)
      ensures o.applied == AppliedTo(Held(old(View()), e), e.event)
      ensures o.changes == ChangesBy(old(View()), e)
      ensures messages == old(messages) + 1
      ensures resets == old(resets) + CountIf(o.reset.Some?) && missed == old(missed) + o.missed
      ensures refreshes == old(refreshes) + CountIf(e.event.BookRefresh? && o.applied)
      ensures ignored == old(ignored) + CountIf(ReachesNone(Held(old(View()), e), e.event))
      ensures bookErrors == old(bookErrors) + CountIf(BreaksBook(Held(old(View()), e), e.event))
    {
      ghost var before := View();
      messages := messages + 1;
      var reset, lost, drops := Settle(e, before);
      var applied, more := Apply(e.event, Held(before, e));
      return Observation(reset, lost, applied, drops + more);
    }

    /** Adopt the message's numbers, dropping every book when they do not follow on. */
    method Settle(
        e: Envelope, ghost before: Follower) returns (reset: Option<ResetReason>, lost: int, drops: seq<StatusChange>)
      requires Valid() && View() == before
      modifies this`books, this`epoch, this`lastSeq, this`resets, this`missed
      ensures Valid() && View() == Follower(Held(before, e), Some(e.epoch), Some(e.seqNo))
      ensures reset == ResetBy(before, e) && lost == MissedBy(before, e)
      ensures drops == if reset.Some? then DropChanges(Sorted(before.books.Keys), before.books) else []
      ensures resets == old(resets) + CountIf(reset.Some?) && missed == old(missed) + lost
    {
      reset, lost := Follow(e, before);
      drops := [];
      if reset.Some? {
        resets := resets + 1;
        missed := missed + lost;
        drops := Clear(before.books);
      }
    }

    /** The changes that declare every listed book unknown, in order. */
    method Drops(keys: seq<Ticker>) returns (changes: seq<StatusChange>)
      requires Valid() && forall k :: 0 <= k < |keys| ==> keys[k] in books
      ensures changes == DropChanges(keys, Copies())
    {
      changes := [];
      for k := 0 to |keys|
        invariant changes == DropChanges(keys[..k], Copies())
      {
        assert keys[..k + 1][..k] == keys[..k];
        changes := changes + [StatusChange(keys[k], StatusOf(keys[k]), Unknown)];
      }
      assert keys[..|keys|] == keys;
    }

    method SortedTickers() returns (keys: seq<Ticker>)
      requires Valid()
      ensures keys == Sorted(Copies().Keys)
      ensures forall k :: 0 <= k < |keys| ==> keys[k] in books
    {
      assert Copies().Keys == books.Keys;
      keys := SortKeys(books.Keys);
      forall k | 0 <= k < |keys| ensures keys[k] in books {
        assert keys[k] in keys;
      }
    }

    method Clear(ghost held: Books) returns (changes: seq<StatusChange>)
      requires Valid() && Copies() == held
      modifies this`books
      ensures Valid() && Copies() == map[]
      ensures changes == DropChanges(Sorted(held.Keys), held)
    {
      var keys := SortedTickers();
      changes := Drops(keys);
      Forget();
    }

    method Forget()
      modifies this`books
      ensures Valid() && Copies() == map[]
    {
      books := map[];
    }

    method Follow(e: Envelope, ghost before: Follower) returns (reset: Option<ResetReason>, lost: int)
      requires Valid() && View() == before
      modifies this`epoch, this`lastSeq
      ensures View() == Follower(before.books, Some(e.epoch), Some(e.seqNo))
      ensures reset == ResetBy(before, e) && lost == MissedBy(before, e)
    {
      var previousEpoch, previousSeq := epoch, lastSeq;
      epoch, lastSeq := Some(e.epoch), Some(e.seqNo);
      if previousEpoch.None? || previousSeq.None? { return Some(Start), 0; }
      if e.epoch != previousEpoch.value { return Some(NewEpoch), e.seqNo - FIRST_BUS_SEQ; }
      if e.seqNo != previousSeq.value + 1 { return Some(Gap), Max(e.seqNo - previousSeq.value - 1, 0); }
      return None, 0;
    }

    method Apply(event: Event, ghost held: Books) returns (applied: bool, changes: seq<StatusChange>)
      requires Valid() && Copies() == held
      modifies this`books, this`refreshes, this`ignored, this`bookErrors, this`repr, repr
      ensures Valid() && fresh(repr - old(repr))
      ensures Copies() == AfterEvent(held, event)
      ensures applied == AppliedTo(held, event)
      ensures changes == EventChanges(held, event)
      ensures refreshes == old(refreshes) + CountIf(event.BookRefresh? && applied)
      ensures ignored == old(ignored) + CountIf(ReachesNone(held, event))
      ensures bookErrors == old(bookErrors) + CountIf(BreaksBook(held, event))
    {
      if !event.IsBook() { return false, []; }
      var before := StatusOf(event.ticker);
      assert before == StatusIn(held, event.ticker);
      if event.BookRefresh? { applied := Adopt(event, held); } else { applied := Change(event, held); }
      var after := StatusOf(event.ticker);
      assert after == StatusIn(Copies(), event.ticker);
      changes := if before == after then [] else [StatusChange(event.ticker, before, after)];
    }

    /** The book an image describes, unless no book can hold it. */
    static method Build(refresh: Event) returns (book: Book, ok: bool)
      requires refresh.BookRefresh?
      ensures fresh(book) && book.Valid() && book.ticker == refresh.ticker
      ensures ok == ValidSnapshot(refresh.bids, refresh.asks)
      ensures ok ==> book.View() == Adopted(refresh)
    {
      book := new Book(refresh.ticker);
      ok := book.ApplySnapshot(refresh.bids, refresh.asks, refresh.ts);
      if ok && refresh.stale { book.MarkStale(); }
    }

    method Adopt(refresh: Event, ghost held: Books) returns (applied: bool)
      requires Valid() && refresh.BookRefresh? && Copies() == held
      modifies this`books, this`refreshes, this`bookErrors, this`repr
      ensures Valid() && fresh(repr - old(repr))
      ensures Copies() == AfterEvent(held, refresh)
      ensures applied == AppliedTo(held, refresh)
      ensures refreshes == old(refreshes) + CountIf(applied) && bookErrors == old(bookErrors) + CountIf(!applied)
    {
      var book;
      book, applied := Build(refresh);
      Install(refresh.ticker, book, applied, held);
    }

    /** Keep a book just built, or drop the market's copy when none could be. */
    method Install(t: Ticker, book: Book, ok: bool, ghost held: Books)
      requires Valid() && Copies() == held && (ok ==> book.Valid() && book.ticker == t)
      modifies this`books, this`refreshes, this`bookErrors, this`repr
      ensures Valid() && repr <= old(repr) + {book}
      ensures ok ==> Copies() == held[t := book.View()]
      ensures !ok ==> Copies() == held - {t}
      ensures refreshes == old(refreshes) + CountIf(ok) && bookErrors == old(bookErrors) + CountIf(!ok)
    {
      if ok {
        Put(t, book, held);
        refreshes := refreshes + 1;
      } else {
        bookErrors := bookErrors + 1;
        Remove(t, held);
      }
    }

    /** `dict.pop`: the copy of one market goes, the others are untouched. */
    method Remove(t: Ticker, ghost held: Books)
      requires Valid() && Copies() == held
      modifies this`books
      ensures Valid() && Copies() == held - {t}
    {
      books := books - {t};
    }

    method Put(t: Ticker, book: Book, ghost held: Books)
      requires Valid() && book.Valid() && book.ticker == t && Copies() == held
      modifies this`books, this`repr
      ensures Valid() && repr == old(repr) + {book}
      ensures Copies() == held[t := book.View()]
    {
      books, repr := books[t := book], repr + {book};
    }

    /** The update of one held book, and whether it was applied or broke an invariant. */
    method Update(t: Ticker, change: Event) returns (applied: bool, broken: bool)
      requires Valid() && t in books && (change.BookSnapshot? || change.BookDelta?)
      modifies books[t]
      ensures Valid()
      ensures Copies() == old(Copies())[t := Altered(old(books[t].View()), change)]
      ensures applied == Takes(old(books[t].View()), change) && broken == Breaks(old(books[t].View()), change)
    {
      var book := books[t];
      if change.BookSnapshot? {
        applied := book.ApplySnapshot(change.bids, change.asks, change.ts);
        broken := !applied;
      } else {
        var r := book.ApplyDelta(change.side, change.price, change.delta, change.ts);
        applied, broken := r.Applied?, r.Broken?;
      }
      forall u | u in books && u != t ensures books[u] != book {
        assert books[u].ticker == u;
      }
    }

    method Change(change: Event, ghost held: Books) returns (applied: bool)
      requires Valid() && (change.BookSnapshot? || change.BookDelta?) && Copies() == held
      modifies this`books, this`ignored, this`bookErrors, repr
      ensures Valid()
      ensures Copies() == AfterEvent(held, change)
      ensures applied == AppliedTo(held, change)
      ensures ignored == old(ignored) + CountIf(ReachesNone(held, change))
      ensures bookErrors == old(bookErrors) + CountIf(BreaksBook(held, change))
    {
      if change.ticker !in books {
        ignored := ignored + 1;
        return false;
      }
      UntakenMeans(held, change);
      applied := Alter(change.ticker, change, held);
    }

    method Alter(t: Ticker, change: Event, ghost held: Books) returns (applied: bool)
      requires Valid() && (change.BookSnapshot? || change.BookDelta?) && Copies() == held && t in books
      modifies this`books, this`ignored, this`bookErrors, repr
      ensures Valid()
      ensures Copies() == if Breaks(held[t], change) then held - {t} else held[t := Altered(held[t], change)]
      ensures applied == Takes(held[t], change)
      ensures bookErrors == old(bookErrors) + CountIf(Breaks(held[t], change))
      ensures ignored == old(ignored) + CountIf(!Breaks(held[t], change) && !Takes(held[t], change))
    {
      var broken;
      applied, broken := Update(t, change);
      Conclude(t, applied, broken, held, Altered(held[t], change));
    }

    method Conclude(t: Ticker, applied: bool, broken: bool, ghost held: Books, ghost altered: BookState)
      requires Valid() && Copies() == held[t := altered]
      modifies this`books, this`ignored, this`bookErrors
      ensures Valid()
      ensures Copies() == if broken then held - {t} else held[t := altered]
      ensures bookErrors == old(bookErrors) + CountIf(broken)
      ensures ignored == old(ignored) + CountIf(!broken && !applied)
    {
      if broken {
        bookErrors := bookErrors + 1;
        Remove(t, held[t := altered]);
        PutThenDrop(held, t, altered);
      } else if !applied {
        ignored := ignored + 1;
      }
    }
  }
}
