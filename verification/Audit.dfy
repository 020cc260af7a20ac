/** Checking a REST book against every state a recorded window spans: `src/tape/recorder/auditor.py`. */
module Audit {
  import opened Prelude
  import opened OrderBook
  import opened Tap

  datatype Outcome = Exact | Consistent | Inconsistent | Undecidable

  datatype Verdict = Verdict(outcome: Outcome, matchIndex: Option<nat>, replyState: Option<Image>)

  const UNDECIDABLE := Verdict(Undecidable, None, None)

  // ------------------------------------------------------------------ the states a window spans

  function LevelsIn(i: Image): Levels {
    Levels(MapOf(i.bids), MapOf(i.asks))
  }

  ghost function StateAt(w: Window, k: nat): BookState
    requires w.start.Some? && k <= |w.events|
  {
    Replay(LevelsIn(w.start.value), w.events[..k])
  }

  lemma NextState(w: Window, k: nat)
    requires w.start.Some? && k < |w.events|
    ensures StateAt(w, k + 1) == AfterChange(StateAt(w, k), w.events[k])
  {
    assert w.events[..k + 1][..k] == w.events[..k];
  }

  /** The copy makes a book and every event takes effect on it. */
  ghost predicate Replays(w: Window) {
    && w.start.Some? && ValidSnapshot(w.start.value.bids, w.start.value.asks)
    && forall k :: 0 <= k < |w.events| ==> Takes(StateAt(w, k), w.events[k])
  }

  /** How many leading events were received by `reply`: the loop of `_received_by`. */
  ghost predicate ReceivedBy(events: seq<Change>, reply: int, k: nat) {
    && k <= |events| && (forall j :: 0 <= j < k ==> events[j].at <= reply)
    && (k < |events| ==> events[k].at > reply)
  }

  ghost predicate MatchAt(w: Window, rest: Levels, k: nat)
    requires w.start.Some?
  {
    k <= |w.events| && StateAt(w, k).levels == rest
  }

  function Distance(k: int, at: int): nat {
    if k < at then at - k else k - at
  }

  /** Of all matching states `m` is nearest the reply, and the earlier of two as near. */
  ghost predicate IsNearest(w: Window, rest: Levels, at: nat, m: nat)
    requires w.start.Some?
  {
    MatchAt(w, rest, m) &&
    forall k :: 0 <= k <= |w.events| && MatchAt(w, rest, k) ==>
      Distance(m, at) < Distance(k, at) || (Distance(m, at) == Distance(k, at) && m <= k)
  }

  /** What a search of every state would conclude. */
  ghost predicate IsVerdict(w: Window, rest: Levels, at: nat, v: Verdict)
    requires w.start.Some? && at <= |w.events|
  {
    && v.replyState == Some(ImageOf(StateAt(w, at).levels))
    && (v.outcome.Exact? <==> MatchAt(w, rest, at))
    && (v.outcome.Inconsistent? <==> forall k :: 0 <= k <= |w.events| ==> !MatchAt(w, rest, k))
    && (v.outcome.Undecidable? <==> false)
    && (v.matchIndex.None? <==> v.outcome.Inconsistent?)
    && (v.matchIndex.Some? ==> IsNearest(w, rest, at, v.matchIndex.value))
  }

  lemma OneVerdict(w: Window, rest: Levels, at: nat, u: Verdict, v: Verdict)
    requires w.start.Some? && at <= |w.events| && IsVerdict(w, rest, at, u) && IsVerdict(w, rest, at, v)
    ensures u == v
  {
    if u.matchIndex.Some? && v.matchIndex.Some? {
      assert MatchAt(w, rest, u.matchIndex.value) && MatchAt(w, rest, v.matchIndex.value);
    }
  }

  // ------------------------------------------------------------------ the search

  method CountReceived(events: seq<Change>, reply: int) returns (k: nat)
    ensures ReceivedBy(events, reply, k)
  {
    k := 0;
    while k < |events| && events[k].at <= reply
      invariant k <= |events|
      invariant forall j :: 0 <= j < k ==> events[j].at <= reply
    {
      k := k + 1;
    }
  }

  /** `false` stands for the raised `BookInvariantError`. */
  method ReplayOnto(book: Book, change: Change) returns (ok: bool)
    requires book.Valid() && !book.stale
    modifies book
    ensures book.Valid() && book.View() == AfterChange(old(book.View()), change)
    ensures ok == Takes(old(book.View()), change) && (ok ==> !book.stale)
  {
    match change
    case Replace(_, bids, asks, _) => ok := book.ApplySnapshot(bids, asks, None);
    case Move(_, side, price, delta, _) =>
      var r := book.ApplyDelta(side, price, delta, None);
      ok := r.Applied?;
  }

  /** Equal levels, whatever the checksum: counts and checksums only spare the comparison. */
  method SameLevels(local: Book, rest: Book, restSum: int, checksum: Levels -> int) returns (same: bool)
    requires local.Valid() && rest.Valid() && restSum == checksum(rest.View().levels)
    ensures same <==> local.View().levels == rest.View().levels
  {
    if local.LevelCount(Bid) != rest.LevelCount(Bid) || local.LevelCount(Ask) != rest.LevelCount(Ask) { return false; }
    if checksum(local.View().levels) != restSum { return false; }
    var differences := DiffBooks(rest, local);
    same := differences == [];
  }

  /** The last match among the states up to `at`. */
  ghost predicate LastMatch(w: Window, rest: Levels, at: nat, nearest: Option<nat>)
    requires w.start.Some?
  {
    match nearest
    case None => forall k :: 0 <= k <= at ==> !MatchAt(w, rest, k)
    case Some(m) => m <= at && MatchAt(w, rest, m) && forall k :: m < k <= at ==> !MatchAt(w, rest, k)
  }

  ghost predicate NoMatch(w: Window, rest: Levels, at: nat, last: int)
    requires w.start.Some?
  {
    forall k :: at < k <= last ==> !MatchAt(w, rest, k)
  }

  /** The first match among the states after `at` up to `last`. */
  ghost predicate FirstMatch(w: Window, rest: Levels, at: nat, last: int, found: Option<nat>)
    requires w.start.Some?
  {
    match found
    case None => NoMatch(w, rest, at, last)
    case Some(m) => at < m <= last && MatchAt(w, rest, m) && NoMatch(w, rest, at, m - 1)
  }

  lemma NoMatchNext(w: Window, rest: Levels, at: nat, last: nat)
    requires w.start.Some? && at < last && NoMatch(w, rest, at, last - 1) && !MatchAt(w, rest, last)
    ensures NoMatch(w, rest, at, last)
  {
  }

  lemma LastMatchNext(w: Window, rest: Levels, at: nat, nearest: Option<nat>)
    requires w.start.Some? && LastMatch(w, rest, at, nearest)
    ensures LastMatch(w, rest, at + 1, if MatchAt(w, rest, at + 1) then Some(at + 1) else nearest)
  {
  }

  /** One more event, and whether the state it leads to matches. */
  method Advance(
      w: Window, index: nat, book: Book, rest: Book, restSum: int, checksum: Levels -> int, ghost wanted: Levels)
      returns (ok: bool, same: bool)
    requires w.start.Some? && index < |w.events| && book != rest
    requires book.Valid() && !book.stale && book.View() == StateAt(w, index)
    requires rest.Valid() && rest.View().levels == wanted && restSum == checksum(wanted)
    modifies book
    ensures Replays(w) ==> ok
    ensures rest.Valid() && rest.View().levels == wanted
    ensures book.Valid() && (ok ==> !book.stale && book.View() == StateAt(w, index + 1))
    ensures ok ==> (same <==> MatchAt(w, wanted, index + 1))
  {
    NextState(w, index);
    ok := ReplayOnto(book, w.events[index]);
    if !ok { return false, false; }
    same := SameLevels(book, rest, restSum, checksum);
  }

  /** The states up to the reply. */
  method SearchBefore(w: Window, at: nat, rest: Book, restSum: int, checksum: Levels -> int)
      returns (book: Book, ok: bool, nearest: Option<nat>)
    requires w.start.Some? && at <= |w.events| && rest.Valid() && restSum == checksum(rest.View().levels)
    ensures fresh(book) && book.Valid()
    ensures Replays(w) ==> ok
    ensures ok ==> !book.stale && book.View() == StateAt(w, at) && LastMatch(w, rest.View().levels, at, nearest)
  {
    ghost var wanted := rest.View().levels;
    book := new Book(w.ticker);
    nearest := None;
    ok := book.ApplySnapshot(w.start.value.bids, w.start.value.asks, None);
    if !ok { return; }
    assert w.events[..0] == [];
    var same := SameLevels(book, rest, restSum, checksum);
    if same { nearest := Some(0); }
    for index := 0 to at
      invariant fresh(book) && book.Valid() && !book.stale && book.View() == StateAt(w, index)
      invariant rest.Valid() && rest.View().levels == wanted
      invariant LastMatch(w, wanted, index, nearest)
    {
      ok, same := Advance(w, index, book, rest, restSum, checksum, wanted);
      if !ok { return; }
      LastMatchNext(w, wanted, index, nearest);
      if same { nearest := Some(index + 1); }
    }
  }

  /** The states after the reply up to `last`, stopping at the first match. */
  method SearchAfter(
      w: Window, at: nat, last: int, book: Book, rest: Book, restSum: int, checksum: Levels -> int,
      ghost wanted: Levels)
      returns (ok: bool, found: Option<nat>)
    requires w.start.Some? && at <= |w.events| && last <= |w.events| && book != rest
    requires book.Valid() && !book.stale && book.View() == StateAt(w, at)
    requires rest.Valid() && rest.View().levels == wanted && restSum == checksum(wanted)
    modifies book
    ensures Replays(w) ==> ok
    ensures ok ==> FirstMatch(w, wanted, at, last, found)
  {
    ok, found := true, None;
    var index := at;
    while index < last
      invariant at <= index <= Max(at, last)
      invariant book.Valid() && !book.stale && book.View() == StateAt(w, index)
      invariant rest.Valid() && rest.View().levels == wanted
      invariant NoMatch(w, wanted, at, index)
    {
      var same;
      ok, same := Advance(w, index, book, rest, restSum, checksum, wanted);
      if !ok { return; }
      index := index + 1;
      if same { return true, Some(index); }
      NoMatchNext(w, wanted, at, index);
    }
  }

  /** The cut-off: beyond `2 * at - m - 1` no match can beat one at `m` before the reply. */
  lemma CutOffLosesNothing(w: Window, rest: Levels, at: nat, nearest: Option<nat>, found: Option<nat>)
    requires w.start.Some? && at <= |w.events| && LastMatch(w, rest, at, nearest) && nearest != Some(at)
    requires var last := if nearest.None? then |w.events| else Min(|w.events|, 2 * at - nearest.value - 1);
             FirstMatch(w, rest, at, last, found)
    ensures !MatchAt(w, rest, at)
    ensures found.Some? ==> IsNearest(w, rest, at, found.value)
    ensures found.None? && nearest.Some? ==> IsNearest(w, rest, at, nearest.value)
    ensures found.None? && nearest.None? ==> forall k :: 0 <= k <= |w.events| ==> !MatchAt(w, rest, k)
  {
  }

  /** `None` stands for the raised `BookInvariantError`, which no window that replays raises. */
  method ClassifyWindow(w: Window, rest: Book, reply: int, checksum: Levels -> int) returns (v: Option<Verdict>)
    requires rest.Valid() && rest.ticker == w.ticker
    ensures w.fault.Some? || w.start.None? ==> v == Some(UNDECIDABLE)
    ensures w.fault.None? && Replays(w) ==> v.Some?
    ensures w.fault.None? && w.start.Some? && v.Some? ==>
              exists at: nat :: ReceivedBy(w.events, reply, at) && IsVerdict(w, rest.View().levels, at, v.value)
  {
    if w.fault.Some? || w.start.None? { return Some(UNDECIDABLE); }
    var at := CountReceived(w.events, reply);
    var restSum := checksum(rest.View().levels);
    ghost var wanted := rest.View().levels;
    var book, ok, nearest := SearchBefore(w, at, rest, restSum, checksum);
    if !ok { return None; }
    var replyState := ImageOf(book.View().levels);
    if nearest == Some(at) { return Some(Verdict(Exact, nearest, Some(replyState))); }
    var last := if nearest.None? then |w.events| else Min(|w.events|, 2 * at - nearest.value - 1);
    var found;
    ok, found := SearchAfter(w, at, last, book, rest, restSum, checksum, wanted);
    if !ok { return None; }
    CutOffLosesNothing(w, wanted, at, nearest, found);
    v := Some(if found.Some? then Verdict(Consistent, found, Some(replyState))
              else if nearest.None? then Verdict(Inconsistent, None, Some(replyState))
              else Verdict(Consistent, nearest, Some(replyState)));
    assert IsVerdict(w, wanted, at, v.value);
  }

  // ------------------------------------------------------------------ live windows

  lemma {:induction false} EffectsTake(l: Local, steps: seq<Step>, k: nat)
    requires Unbroken(l, steps) && k < |Effects(l, steps)|
    ensures Takes(Replay(StateOf(l).levels, Effects(l, steps)[..k]), Effects(l, steps)[k])
  {
    if steps != [] {
      var init, s := steps[..|steps| - 1], steps[|steps| - 1];
      UnbrokenBefore(l, steps, |init|);
      if k < |Effects(l, init)| {
        EffectsTake(l, init, k);
        assert Effects(l, steps)[..k] == Effects(l, init)[..k];
      } else {
        UnbrokenBefore(l, init, 0);
        UnbrokenIsReplay(l, init);
        assert Effects(l, steps)[..k] == Effects(l, init);
      }
    }
  }

  /** The verdict on any window without a fault is about the states the live book really held: the window
      replays, and each of its states was the book's while the tap was open. */
  lemma LiveWindowsReplay(t: Ticker, l: Local, steps: seq<Step>, max: nat, k: nat) returns (i: nat)
    requires IdsAreSpent(l) && StateOf(l).WellFormed() && WindowOf(t, l, steps, max).fault.None?
    requires k <= |WindowOf(t, l, steps, max).events|
    ensures Replays(WindowOf(t, l, steps, max))
    ensures i <= |steps| && StateOf(LocalAfter(l, steps[..i])) == StateAt(WindowOf(t, l, steps, max), k)
  {
    var w := WindowOf(t, l, steps, max);
    WindowIsWholeIff(t, l, steps, max);
    WindowReplaysTheBook(t, l, steps, max, 0);
    UnbrokenBefore(l, steps, 0);
    ImageRestores(StateOf(l), EMPTY_BOOK);
    forall j | 0 <= j < |w.events| ensures Takes(StateAt(w, j), w.events[j]) {
      EffectsTake(l, steps, j);
    }
    i := EveryReplayedStateWasHeld(l, steps, k);
  }
}
