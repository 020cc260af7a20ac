/** A bounded recording of everything that happens to a live book: `src/tape/recorder/tap.py`. */
module Tap {
  import opened Prelude
  import opened OrderBook

  datatype Change =
    | Replace(ticker: Ticker, bids: seq<Level>, asks: seq<Level>, at: int)
    | Move(ticker: Ticker, side: Side, price: Price, delta: int, at: int)

  /** A copy of a book's levels, best first on each side. */
  datatype Image = Image(bids: seq<Level>, asks: seq<Level>)

  datatype Fault = NoBook | WentStale | Overflow

  datatype Window = Window(ticker: Ticker, start: Option<Image>, events: seq<Change>, fault: Option<Fault>)

  /** `book` is the object copied at opening, kept to notice that it was dropped. */
  datatype Recording<B> = Recording(book: Option<B>, start: Option<Image>, events: seq<Change>, fault: Option<Fault>)

  function ImageOf(l: Levels): Image {
    Image(BestFirst(l.bids, Bid), BestFirst(l.asks, Ask))
  }

  function OpenOn<B>(book: Option<B>, state: BookState): Recording<B> {
    if book.None? || state.stale then Recording(None, None, [], Some(NoBook))
    else Recording(book, Some(ImageOf(state.levels)), [], None)
  }

  function Noted<B>(r: Recording<B>, change: Change, wasStale: bool, max: nat): Recording<B> {
    if r.fault.Some? then r
    else if wasStale then r.(fault := Some(WentStale))
    else if |r.events| >= max then r.(fault := Some(Overflow))
    else r.(events := r.events + [change])
  }

  /** `current` is the book the supervisor holds at closing. */
  function Finished<B(==)>(t: Ticker, r: Recording<B>, current: Option<B>, stale: bool): Window {
    Window(t, r.start, r.events,
        if r.fault.None? && (current.None? || current != r.book || stale) then Some(WentStale) else r.fault)
  }

  // ------------------------------------------------------------------ the live book meanwhile

  /** A book object is told apart from its successors by an identity of its own. */
  datatype Held = Held(id: Key, state: BookState)

  datatype Local = Local(book: Option<Held>, made: int)

  datatype Step =
    | Received(change: Change)
    | TurnStale                                // a gap, a broken delta elsewhere, a disconnect
    | Dropped                                  // the market left the connection

  ghost function AfterChange(b: BookState, c: Change): BookState {
    match c
    case Replace(_, bids, asks, _) => AfterSnapshot(b, bids, asks)
    case Move(_, side, price, delta, _) => AfterDelta(b, side, price, delta)
  }

  /** Whether the supervisor applied the change, and so reports it. */
  ghost predicate Takes(b: BookState, c: Change) {
    match c
    case Replace(_, bids, asks, _) => ValidSnapshot(bids, asks)
    case Move(_, side, price, delta, _) => DeltaVerdict(b, side, price, delta) == Applied
  }

  ghost function LocalNext(l: Local, s: Step): Local {
    match s
    case Dropped => l.(book := None)
    case TurnStale => if l.book.None? then l else
        l.(book := Some(l.book.value.(state := l.book.value.state.(stale := true))))
    case Received(c) =>
      if l.book.Some? then l.(book := Some(l.book.value.(state := AfterChange(l.book.value.state, c))))
      else if c.Replace? then Local(Some(Held(Key(l.made), AfterChange(EMPTY_BOOK, c))), l.made + 1)
      else l
  }

  ghost predicate Reports(l: Local, s: Step) {
    s.Received? && (if l.book.Some? then Takes(l.book.value.state, s.change) else
        s.change.Replace? && Takes(EMPTY_BOOK, s.change))
  }

  ghost predicate WasStale(l: Local) {
    l.book.None? || l.book.value.state.stale
  }

  ghost function TapNext(l: Local, r: Recording<Key>, s: Step, max: nat): Recording<Key> {
    if Reports(l, s) then Noted(r, s.change, s.change.Replace? && WasStale(l), max) else r
  }

  ghost function LocalAfter(l: Local, steps: seq<Step>): Local {
    if steps == [] then l else LocalNext(LocalAfter(l, steps[..|steps| - 1]), steps[|steps| - 1])
  }

  /** The changes that took effect, in order. */
  ghost function Effects(l: Local, steps: seq<Step>): seq<Change> {
    if steps == [] then [] else
      var init, s := steps[..|steps| - 1], steps[|steps| - 1];
      Effects(l, init) + (if Reports(LocalAfter(l, init), s) then [s.change] else [])
  }

  ghost function IdOf(l: Local): Option<Key> {
    if l.book.None? then None else Some(l.book.value.id)
  }

  ghost function StateOf(l: Local): BookState {
    if l.book.None? then EMPTY_BOOK else l.book.value.state
  }

  ghost function Recorded(l: Local, steps: seq<Step>, max: nat): Recording<Key> {
    if steps == [] then OpenOn(IdOf(l), StateOf(l)) else
      var init := steps[..|steps| - 1];
      TapNext(LocalAfter(l, init), Recorded(l, init, max), steps[|steps| - 1], max)
  }

  /** The window of a tap opened at `l` and closed after `steps`. */
  ghost function WindowOf(t: Ticker, l: Local, steps: seq<Step>, max: nat): Window {
    var last := LocalAfter(l, steps);
    Finished(t, Recorded(l, steps, max), IdOf(last), StateOf(last).stale)
  }

  /** The book at the end is the one at the beginning, and fresh. */
  ghost predicate SameAndFresh(l: Local, last: Local) {
    l.book.Some? && last.book.Some? && last.book.value.id == l.book.value.id && !last.book.value.state.stale
  }

  /** The one book was there and fresh all the time. */
  ghost predicate Unbroken(l: Local, steps: seq<Step>) {
    SameAndFresh(l, LocalAfter(l, steps)) && (steps == [] || Unbroken(l, steps[..|steps| - 1]))
  }

  // ------------------------------------------------------------------ what a window promises

  /** Replay from a fresh copy. */
  ghost function Replay(start: Levels, events: seq<Change>): BookState {
    if events == [] then BookState(start, false) else
        AfterChange(Replay(start, events[..|events| - 1]), events[|events| - 1])
  }

  ghost predicate IdsAreSpent(l: Local) {
    l.book.Some? ==> l.book.value.id.rank < l.made
  }

  lemma {:induction false} NewIdsOnly(l: Local, steps: seq<Step>)
    requires IdsAreSpent(l)
    ensures var last := LocalAfter(l, steps);
            IdsAreSpent(last) && last.made >= l.made
            && (last.book.Some? ==>
                last.book.value.id == (if l.book.Some? then l.book.value.id else last.book.value.id)
                || last.book.value.id.rank >= l.made)
  {
    if steps != [] { NewIdsOnly(l, steps[..|steps| - 1]); }
  }

  /** While no fault is noted nothing that took effect is missing, and a book that is fresh and still the
      same was so all along. */
  lemma {:induction false} NothingMissed(l: Local, steps: seq<Step>, max: nat)
    requires IdsAreSpent(l) && l.book.Some? && !l.book.value.state.stale
    ensures var r := Recorded(l, steps, max);
            && r.book == IdOf(l) && r.start == Some(ImageOf(l.book.value.state.levels)) && r.fault != Some(NoBook)
            && (r.fault.None? ==> r.events == Effects(l, steps) && |r.events| <= max)
            && (r.fault.None? && SameAndFresh(l, LocalAfter(l, steps)) ==> Unbroken(l, steps))
            && (r.fault.Some? ==> !Unbroken(l, steps) || |Effects(l, steps)| > max)
  {
    if steps != [] {
      var init, s := steps[..|steps| - 1], steps[|steps| - 1];
      NothingMissed(l, init, max);
      NewIdsOnly(l, init);
    }
  }

  lemma {:induction false} UnbrokenIsReplay(l: Local, steps: seq<Step>)
    requires Unbroken(l, steps)
    ensures LocalAfter(l, steps).book.value.state == Replay(l.book.value.state.levels, Effects(l, steps))
  {
    if steps != [] {
      var init, s := steps[..|steps| - 1], steps[|steps| - 1];
      UnbrokenIsReplay(l, init);
      var before := Effects(l, init);
      if Reports(LocalAfter(l, init), s) { assert (before + [s.change])[..|before|] == before; }
    }
  }

  lemma {:induction false} UnbrokenBefore(l: Local, steps: seq<Step>, i: nat)
    requires Unbroken(l, steps) && i <= |steps|
    ensures Unbroken(l, steps[..i])
    ensures |Effects(l, steps[..i])| <= |Effects(l, steps)|
            && Effects(l, steps)[..|Effects(l, steps[..i])|] == Effects(l, steps[..i])
  {
    if i < |steps| {
      var init := steps[..|steps| - 1];
      UnbrokenBefore(l, init, i);
      assert init[..i] == steps[..i];
    } else {
      assert steps[..i] == steps;
    }
  }

  /** A window is without a fault exactly when its one book was fresh from opening to closing and no more
      than `max` changes took effect. */
  lemma WindowIsWholeIff(t: Ticker, l: Local, steps: seq<Step>, max: nat)
    requires IdsAreSpent(l)
    ensures WindowOf(t, l, steps, max).fault.None? <==> Unbroken(l, steps) && |Effects(l, steps)| <= max
    ensures WindowOf(t, l, steps, max).fault == Some(NoBook) <==> !SameAndFresh(l, l)
  {
    if SameAndFresh(l, l) {
      NothingMissed(l, steps, max);
    } else {
      NeverOpened(l, steps, max);
      BrokenFromTheStart(l, steps);
    }
  }

  lemma {:induction false} NeverOpened(l: Local, steps: seq<Step>, max: nat)
    requires !SameAndFresh(l, l)
    ensures Recorded(l, steps, max) == Recording(None, None, [], Some(NoBook))
  {
    if steps != [] { NeverOpened(l, steps[..|steps| - 1], max); }
  }

  lemma {:induction false} BrokenFromTheStart(l: Local, steps: seq<Step>)
    requires !SameAndFresh(l, l)
    ensures !Unbroken(l, steps)
  {
    if steps != [] { BrokenFromTheStart(l, steps[..|steps| - 1]); }
  }

  /** A window without a fault replays, event by event from its copy, through exactly the states the live
      book held: at every moment the book was the replay of the events so far. */
  lemma WindowReplaysTheBook(t: Ticker, l: Local, steps: seq<Step>, max: nat, i: nat)
    requires IdsAreSpent(l) && i <= |steps| && WindowOf(t, l, steps, max).fault.None?
    ensures var w := WindowOf(t, l, steps, max); var k := |Effects(l, steps[..i])|;
            && w.start == Some(ImageOf(StateOf(l).levels)) && w.events == Effects(l, steps)
            && k <= |w.events| && LocalAfter(l, steps[..i]).book.Some?
            && StateOf(LocalAfter(l, steps[..i])) == Replay(StateOf(l).levels, w.events[..k])
  {
    WindowIsWholeIff(t, l, steps, max);
    UnbrokenBefore(l, steps, 0);
    NothingMissed(l, steps, max);
    UnbrokenBefore(l, steps, i);
    UnbrokenIsReplay(l, steps[..i]);
  }

  /** And through no others: each replayed state was the book's at some moment. */
  lemma {:induction false} EveryReplayedStateWasHeld(l: Local, steps: seq<Step>, k: nat) returns (i: nat)
    requires Unbroken(l, steps) && k <= |Effects(l, steps)|
    ensures i <= |steps| && |Effects(l, steps[..i])| == k
    ensures StateOf(LocalAfter(l, steps[..i])) == Replay(StateOf(l).levels, Effects(l, steps)[..k])
  {
    if k == |Effects(l, steps)| {
      i := |steps|;
      assert steps[..i] == steps;
    } else {
      var init := steps[..|steps| - 1];
      i := EveryReplayedStateWasHeld(l, init, k);
      assert init[..i] == steps[..i];
    }
    UnbrokenBefore(l, steps, 0);
    UnbrokenBefore(l, steps, i);
    UnbrokenIsReplay(l, steps[..i]);
  }

  // ------------------------------------------------------------------ the tap object

  /** What one market's live entry is now. */
  function Entry(books: map<Ticker, Book>, t: Ticker): Option<Book> {
    if t in books then Some(books[t]) else None
  }

  function StateIn(books: map<Ticker, Book>, t: Ticker): BookState
    reads if t in books then {books[t]} else {}
  {
    if t in books then books[t].View() else EMPTY_BOOK
  }

  class LiveBookTap {
    const tickers: set<Ticker>
    const maxEvents: nat
    var recordings: map<Ticker, Recording<Book>>
    var windows: Option<map<Ticker, Window>>

    constructor (tickers: set<Ticker>, books: map<Ticker, Book>, maxEvents: nat)
      requires maxEvents > 0
      ensures this.tickers == tickers && this.maxEvents == maxEvents && windows.None?
      ensures recordings.Keys == tickers
      ensures forall t :: t in tickers ==> recordings[t] == OpenOn(Entry(books, t), StateIn(books, t))
    {
      this.tickers, this.maxEvents, windows := tickers, maxEvents, None;
      recordings := map t | t in tickers :: OpenOn(Entry(books, t), StateIn(books, t));
    }

    /** Only the changed market's recording takes the change; a closed tap takes nothing. */
    method Record(change: Change, wasStale: bool)
      modifies this`recordings
      ensures recordings.Keys == old(recordings).Keys
      ensures forall t :: t in recordings ==>
                recordings[t] ==
                    if t == change.ticker then Noted(old(recordings)[t], change, wasStale, maxEvents) else
                    old(recordings)[t]
    {
      if change.ticker !in recordings { return; }
      var recording := recordings[change.ticker];
      if recording.fault.Some? { return; }
      if wasStale {
        recording := recording.(fault := Some(WentStale));
      } else if |recording.events| >= maxEvents {
        recording := recording.(fault := Some(Overflow));
      } else {
        recording := recording.(events := recording.events + [change]);
      }
      recordings := recordings[change.ticker := recording];
    }

    /** The first closing makes the windows and releases everything held; later ones change nothing. */
    method Close(books: map<Ticker, Book>) returns (made: map<Ticker, Window>)
      modifies this`recordings, this`windows
      ensures windows == Some(made)
      ensures old(windows).Some? ==> made == old(windows).value && recordings == old(recordings)
      ensures old(windows).None? ==> recordings == map[] && made.Keys == old(recordings).Keys
      ensures old(windows).None? ==> forall t :: t in made ==>
                made[t] == Finished(t, old(recordings)[t], Entry(books, t), StateIn(books, t).stale)
    {
      if windows.None? {
        windows := Some(map t | t in recordings ::
            Finished(t, recordings[t], Entry(books, t), StateIn(books, t).stale));
        recordings := map[];
      }
      made := windows.value;
    }
  }
}
