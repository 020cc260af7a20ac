/** One market's order book: `src/tape/book/book.py`. */
module OrderBook {
  import opened Prelude

  datatype Side = Bid | Ask
  datatype Level = Level(price: Price, count: int)
  datatype Levels = Levels(bids: map<Price, int>, asks: map<Price, int>)

  /** What a book means: its levels and whether they can be trusted. */
  datatype BookState = BookState(levels: Levels, stale: bool) {
    ghost predicate WellFormed() {
      && Positive(levels.bids) && Positive(levels.asks)
      && (!stale ==> !Crossed(levels))
    }
  }

  datatype DeltaResult = Applied | Ignored | Broken

  predicate Positive(m: map<Price, int>) {
    forall p :: p in m ==> m[p] > 0
  }

  /** The highest bid is at or above the lowest ask. */
  ghost predicate Crossed(l: Levels) {
    l.bids.Keys != {} && l.asks.Keys != {} && MaxOf(l.bids.Keys).rank >= MinOf(l.asks.Keys).rank
  }

  lemma CrossedMeans(l: Levels)
    ensures Crossed(l) <==> exists b, a :: b in l.bids && a in l.asks && b.rank >= a.rank
  {
    if b, a :| b in l.bids && a in l.asks && b.rank >= a.rank {
      assert b in l.bids.Keys && a in l.asks.Keys;
    }
    if Crossed(l) {
      assert MaxOf(l.bids.Keys) in l.bids && MinOf(l.asks.Keys) in l.asks;
    }
  }

  const EMPTY_BOOK := BookState(Levels(map[], map[]), true)

  // ------------------------------------------------------------------ what a level list means

  ghost predicate ValidSide(ls: seq<Level>) {
    && (forall i :: 0 <= i < |ls| ==> ls[i].count > 0)
    && (forall i, j :: 0 <= i < j < |ls| ==> ls[i].price != ls[j].price)
  }

  function MapOf(ls: seq<Level>): map<Price, int> {
    if ls == [] then map[] else MapOf(ls[..|ls| - 1])[ls[|ls| - 1].price := ls[|ls| - 1].count]
  }

  ghost predicate SameSide(ls: seq<Level>, m: map<Price, int>) {
    && (forall l: Level :: l in ls ==> l.price in m && m[l.price] == l.count)
    && (forall p :: p in m ==> Level(p, m[p]) in ls)
  }

  lemma {:induction false} MapOfEntries(ls: seq<Level>)
    requires ValidSide(ls)
    ensures Positive(MapOf(ls))
    ensures SameSide(ls, MapOf(ls))
  {
    if ls != [] {
      var rest, last := ls[..|ls| - 1], ls[|ls| - 1];
      MapOfEntries(rest);
      assert ls == rest + [last];
      assert forall l :: l in ls <==> l in rest || l == last;
      assert forall i :: 0 <= i < |rest| ==> rest[i] in rest;
      assert forall l :: l in rest ==> l.price != last.price;
      forall p | p in MapOf(ls) ensures MapOf(ls)[p] > 0 {
      }
    }
  }

  lemma PriceTaken(ls: seq<Level>, p: Price)
    requires ValidSide(ls)
    ensures p in MapOf(ls) <==> exists i :: 0 <= i < |ls| && ls[i].price == p
  {
    MapOfEntries(ls);
    if i :| 0 <= i < |ls| && ls[i].price == p {
      assert ls[i] in ls;
    }
  }

  lemma PrefixIsValid(ls: seq<Level>, k: nat)
    requires k <= |ls|
    ensures ValidSide(ls) ==> ValidSide(ls[..k])
  {
  }

  lemma ValidSideSnoc(init: seq<Level>, last: Level)
    ensures MapOf(init + [last]) == MapOf(init)[last.price := last.count]
    ensures ValidSide(init + [last]) <==> ValidSide(init) && last.count > 0 && last.price !in MapOf(init)
  {
    var ls := init + [last];
    assert ls[..|init|] == init;
    PrefixIsValid(ls, |init|);
    if ValidSide(init) {
      PriceTaken(init, last.price);
      assert ls[|init|] == last && forall i :: 0 <= i < |init| ==> ls[i] == init[i];
    }
  }

  lemma SameSideDecides(ls: seq<Level>, m: map<Price, int>, n: map<Price, int>)
    requires SameSide(ls, m) && SameSide(ls, n)
    ensures m == n
  {
    forall p | p in m ensures p in n && m[p] == n[p] {
      assert Level(p, m[p]) in ls;
    }
    forall p | p in n ensures p in m {
      assert Level(p, n[p]) in ls;
    }
  }

  /** Two valid lists of the same levels, in any order, mean the same side. */
  lemma SameLevelsSameMap(a: seq<Level>, b: seq<Level>)
    requires ValidSide(a) && ValidSide(b)
    requires forall l :: l in a <==> l in b
    ensures MapOf(a) == MapOf(b)
  {
    MapOfEntries(a);
    MapOfEntries(b);
    SameSideDecides(a, MapOf(a), MapOf(b));
  }

  /** The same levels as often, in whatever order. */
  ghost predicate Shuffled(a: seq<Level>, b: seq<Level>) {
    forall l: Level :: multiset(a)[l] == multiset(b)[l]
  }

  lemma TwiceThere(s: seq<Level>, i: nat, j: nat)
    requires i < j < |s| && s[i] == s[j]
    ensures multiset(s)[s[i]] >= 2
  {
    assert s == s[..j] + [s[j]] + s[j + 1..];
    assert s[..j][i] == s[i];
    assert s[i] in multiset(s[..j]);
  }

  lemma ShuffledHas(a: seq<Level>, b: seq<Level>, l: Level)
    requires Shuffled(a, b) && l in b
    ensures l in a
  {
    assert l in multiset(b);
    assert multiset(a)[l] > 0;
  }

  lemma ShuffledIsValid(a: seq<Level>, b: seq<Level>)
    requires Shuffled(a, b) && ValidSide(a)
    ensures ValidSide(b)
  {
    forall i | 0 <= i < |b| ensures b[i].count > 0 {
      ShuffledHas(a, b, b[i]);
    }
    forall i, j | 0 <= i < j < |b| ensures b[i].price != b[j].price {
      ShuffledHas(a, b, b[i]);
      ShuffledHas(a, b, b[j]);
      var m :| 0 <= m < |a| && a[m] == b[i];
      var n :| 0 <= n < |a| && a[n] == b[j];
      if b[i] == b[j] {
        TwiceThere(b, i, j);
        OnceInValid(a, b[i]);
      }
    }
  }

  lemma OnceInValid(a: seq<Level>, l: Level)
    requires ValidSide(a)
    ensures multiset(a)[l] <= 1
  {
    if multiset(a)[l] > 1 { TwiceMeansTwo(a, l); }
  }

  lemma {:induction false} TwiceMeansTwo(a: seq<Level>, l: Level)
    requires multiset(a)[l] > 1
    ensures exists i, j :: 0 <= i < j < |a| && a[i] == l && a[j] == l
  {
    var init, last := a[..|a| - 1], a[|a| - 1];
    assert a == init + [last];
    CountSnoc(init, last, l);
    if last == l {
      assert l in multiset(init);
      var i :| 0 <= i < |init| && init[i] == l;
      assert a[i] == l && a[|a| - 1] == l;
    } else {
      TwiceMeansTwo(init, l);
      var i, j :| 0 <= i < j < |init| && init[i] == l && init[j] == l;
      assert a[i] == l && a[j] == l;
    }
  }

  lemma ShuffledSide(a: seq<Level>, b: seq<Level>)
    requires Shuffled(a, b)
    ensures ValidSide(a) <==> ValidSide(b)
    ensures ValidSide(a) ==> MapOf(a) == MapOf(b)
  {
    if ValidSide(a) { ShuffledIsValid(a, b); }
    if ValidSide(b) { ShuffledIsValid(b, a); }
    if ValidSide(a) && ValidSide(b) {
      forall l ensures l in a <==> l in b {
        if l in b { ShuffledHas(a, b, l); }
        if l in a { ShuffledHas(b, a, l); }
      }
      SameLevelsSameMap(a, b);
    }
  }

  // ------------------------------------------------------------------ the transition system

  ghost predicate ValidSnapshot(bids: seq<Level>, asks: seq<Level>) {
    ValidSide(bids) && ValidSide(asks) && !Crossed(Levels(MapOf(bids), MapOf(asks)))
  }

  /** A snapshot replaces every level, or leaves the book as it was but stale. */
  ghost function AfterSnapshot(b: BookState, bids: seq<Level>, asks: seq<Level>): BookState {
    if ValidSnapshot(bids, asks) then BookState(Levels(MapOf(bids), MapOf(asks)), false)
    else b.(stale := true)
  }

  function SideOf(l: Levels, side: Side): map<Price, int> {
    if side.Bid? then l.bids else l.asks
  }

  function WithSide(l: Levels, side: Side, m: map<Price, int>): Levels {
    if side.Bid? then l.(bids := m) else l.(asks := m)
  }

  function CountAt(m: map<Price, int>, price: Price): int {
    if price in m then m[price] else 0
  }

  /** One side after a level's count becomes `count`; a zero count is no level. */
  function WithCount(m: map<Price, int>, price: Price, count: int): map<Price, int> {
    if count == 0 then m - {price} else m[price := count]
  }

  function Moved(l: Levels, side: Side, price: Price, delta: int): Levels {
    WithSide(l, side, WithCount(SideOf(l, side), price, CountAt(SideOf(l, side), price) + delta))
  }

  ghost function DeltaVerdict(b: BookState, side: Side, price: Price, delta: int): DeltaResult {
    if b.stale then Ignored
    else if CountAt(SideOf(b.levels, side), price) + delta < 0 then Broken
    else if Crossed(Moved(b.levels, side, price, delta)) then Broken
    else Applied
  }

  ghost function AfterDelta(b: BookState, side: Side, price: Price, delta: int): BookState {
    if b.stale then b
    else if CountAt(SideOf(b.levels, side), price) + delta < 0 then b.(stale := true)
    else
      var moved := Moved(b.levels, side, price, delta);
      BookState(moved, Crossed(moved))
  }

  lemma TransitionsKeepWellFormed(b: BookState, bids: seq<Level>, asks: seq<Level>,
                                  side: Side, price: Price, delta: int)
    requires b.WellFormed()
    ensures AfterSnapshot(b, bids, asks).WellFormed()
    ensures AfterDelta(b, side, price, delta).WellFormed()
    ensures DeltaVerdict(b, side, price, delta) == Applied <==> !b.stale && !AfterDelta(b, side, price, delta).stale
  {
    if ValidSnapshot(bids, asks) {
      MapOfEntries(bids);
      MapOfEntries(asks);
    }
  }

  /** A snapshot is taken when every count is positive, no side names a price twice and no bid is at or above an
      ask; the book then has exactly the listed levels. Otherwise its levels stay, and it is stale. */
  lemma SnapshotMeans(b: BookState, bids: seq<Level>, asks: seq<Level>)
    ensures var after := AfterSnapshot(b, bids, asks);
            && (!after.stale <==>
                && (forall l: Level :: l in bids || l in asks ==> l.count > 0)
                && (forall i, j :: 0 <= i < j < |bids| ==> bids[i].price != bids[j].price)
                && (forall i, j :: 0 <= i < j < |asks| ==> asks[i].price != asks[j].price)
                && (forall i, j :: 0 <= i < |bids| && 0 <= j < |asks| ==> bids[i].price.rank < asks[j].price.rank))
            && (after.stale ==> after.levels == b.levels)
            && (!after.stale ==> forall l: Level ::
                && (l in bids <==> l.price in after.levels.bids && after.levels.bids[l.price] == l.count)
                && (l in asks <==> l.price in after.levels.asks && after.levels.asks[l.price] == l.count))
  {
    ListedCounts(bids, asks);
    if ValidSide(bids) && ValidSide(asks) {
      MapOfEntries(bids);
      MapOfEntries(asks);
      CrossedWhenListed(bids, asks);
    }
  }

  lemma ListedCounts(bids: seq<Level>, asks: seq<Level>)
    ensures (forall l: Level :: l in bids || l in asks ==> l.count > 0) <==>
              (forall i :: 0 <= i < |bids| ==> bids[i].count > 0) && (forall i :: 0 <= i < |asks| ==> asks[i].count > 0)
  {
    assert forall i :: 0 <= i < |bids| ==> bids[i] in bids;
    assert forall i :: 0 <= i < |asks| ==> asks[i] in asks;
  }

  lemma CrossedWhenListed(bids: seq<Level>, asks: seq<Level>)
    requires ValidSide(bids) && ValidSide(asks)
    ensures Crossed(Levels(MapOf(bids), MapOf(asks))) <==>
              exists i, j :: 0 <= i < |bids| && 0 <= j < |asks| && bids[i].price.rank >= asks[j].price.rank
  {
    var l := Levels(MapOf(bids), MapOf(asks));
    CrossedMeans(l);
    if b, a :| b in l.bids && a in l.asks && b.rank >= a.rank {
      PriceTaken(bids, b);
      PriceTaken(asks, a);
    }
    if i, j :| 0 <= i < |bids| && 0 <= j < |asks| && bids[i].price.rank >= asks[j].price.rank {
      PriceTaken(bids, bids[i].price);
      PriceTaken(asks, asks[j].price);
    }
  }

  /** One side of a book before and after `delta` is added to the count at one price. */
  ghost predicate Shifted(was: map<Price, int>, now: map<Price, int>, price: Price, delta: int) {
    var count := (if price in was then was[price] else 0) + delta;
    && (forall p: Price :: p != price ==> (p in now <==> p in was) && (p in was ==> now[p] == was[p]))
    && (price in now <==> count != 0)
    && (count != 0 ==> now[price] == count)
  }

  /** What a delta makes of its side of a fresh book: a count below zero breaks the book and changes no level; otherwise
      the level moves, and the book breaks if a bid is then at or above an ask. */
  ghost predicate MovesOwn(own: map<Price, int>, now: map<Price, int>, after: BookState, price: Price, delta: int) {
    if (if price in own then own[price] else 0) + delta < 0 then now == own && after.stale
    else
      && Shifted(own, now, price, delta)
      && (after.stale <==> exists x, y :: x in after.levels.bids && y in after.levels.asks && x.rank >= y.rank)
  }

  /** A delta moves one level of its own side and leaves the other side alone. */
  lemma DeltaMeans(b: BookState, side: Side, price: Price, delta: int)
    ensures b.stale ==> AfterDelta(b, side, price, delta) == b && DeltaVerdict(b, side, price, delta) == Ignored
    ensures !b.stale && side == Bid ==>
              var after := AfterDelta(b, side, price, delta);
              MovesOwn(b.levels.bids, after.levels.bids, after, price, delta) && after.levels.asks == b.levels.asks
    ensures !b.stale && side == Ask ==>
              var after := AfterDelta(b, side, price, delta);
              MovesOwn(b.levels.asks, after.levels.asks, after, price, delta) && after.levels.bids == b.levels.bids
    ensures !b.stale ==> DeltaVerdict(b, side, price, delta) ==
                           if AfterDelta(b, side, price, delta).stale then Broken else Applied
  {
    CrossedMeans(Moved(b.levels, side, price, delta));
  }

  // ------------------------------------------------------------------ best-first listings

  /** The levels of a side by ascending price. */
  function Listed(m: map<Price, int>): seq<Level>
    decreases |m|
  {
    if m == map[] then [] else
      var p := MinOf(m.Keys);
      assert (m - {p}).Keys == m.Keys - {p};
      [Level(p, m[p])] + Listed(m - {p})
  }

  ghost predicate ByPrice(ls: seq<Level>) {
    forall i, j :: 0 <= i < j < |ls| ==> ls[i].price.rank < ls[j].price.rank
  }

  lemma PrependLevel(m: map<Price, int>, p: Price, ls: seq<Level>)
    requires IsMin(m.Keys, p) && SameSide(ls, m - {p}) && ByPrice(ls)
    ensures SameSide([Level(p, m[p])] + ls, m) && ByPrice([Level(p, m[p])] + ls)
  {
    var all := [Level(p, m[p])] + ls;
    assert forall l :: l in all <==> l == Level(p, m[p]) || l in ls;
    assert forall q :: q in m ==> q == p || (q in m - {p} && (m - {p})[q] == m[q]);
    forall i | 0 <= i < |ls| ensures p.rank < ls[i].price.rank {
      assert ls[i] in ls;
      assert ls[i].price in m.Keys && ls[i].price != p;
    }
  }

  lemma {:induction false} ListedLevels(m: map<Price, int>)
    ensures SameSide(Listed(m), m) && ByPrice(Listed(m)) && |Listed(m)| == |m|
    decreases |m|
  {
    if m != map[] {
      var p := MinOf(m.Keys);
      assert (m - {p}).Keys == m.Keys - {p};
      ListedLevels(m - {p});
      PrependLevel(m, p, Listed(m - {p}));
    }
  }

  function BestFirst(m: map<Price, int>, side: Side): seq<Level> {
    if side.Bid? then Reverse(Listed(m)) else Listed(m)
  }

  lemma ReverseMembers<T>(s: seq<T>)
    ensures forall x :: x in s <==> x in Reverse(s)
  {
    forall x | x in s ensures x in Reverse(s) {
      var i :| 0 <= i < |s| && s[i] == x;
      assert Reverse(s)[|s| - 1 - i] == x;
    }
  }

  lemma SortedSideIsValid(m: map<Price, int>, ls: seq<Level>)
    requires Positive(m) && SameSide(ls, m) && ByPrice(ls)
    ensures ValidSide(ls) && ValidSide(Reverse(ls))
  {
    assert forall i :: 0 <= i < |ls| ==> ls[i] in ls;
  }

  lemma ListingIsValid(m: map<Price, int>, side: Side)
    requires Positive(m)
    ensures ValidSide(BestFirst(m, side))
    ensures MapOf(BestFirst(m, side)) == m
  {
    ListedLevels(m);
    SortedSideIsValid(m, Listed(m));
    ReverseMembers(Listed(m));
    var r := BestFirst(m, side);
    MapOfEntries(r);
    SameSideDecides(r, MapOf(r), m);
  }

  /** The first of two levels is offered before the second: bids from the highest price down, asks
      from the lowest up. */
  ghost predicate Ahead(side: Side, a: Level, b: Level) {
    match side
    case Bid => a.price.rank > b.price.rank
    case Ask => a.price.rank < b.price.rank
  }

  /** A listing holds every level of its side once and nothing else, the best one first. */
  lemma ListingIsBestFirst(m: map<Price, int>, side: Side)
    ensures forall l: Level :: l in BestFirst(m, side) <==> l.price in m && m[l.price] == l.count
    ensures |BestFirst(m, side)| == |m|
    ensures forall i, j :: 0 <= i < j < |m| ==> Ahead(side, BestFirst(m, side)[i], BestFirst(m, side)[j])
  {
    ListedLevels(m);
    ReverseMembers(Listed(m));
  }

  /** It begins at the price no other price of the side is better than. */
  lemma ListingBeginsAtBest(m: map<Price, int>, side: Side, best: Option<Price>)
    ensures IsBest(best, m, side) ==>
              best == if BestFirst(m, side) == [] then None else Some(BestFirst(m, side)[0].price)
  {
    ListingIsBestFirst(m, side);
    if IsBest(best, m, side) && best.Some? {
      var first := BestFirst(m, side);
      assert Level(best.value, m[best.value]) in first;
      assert first[0] in first;
      assert first[0].price in m.Keys;
    }
  }

  /** The image of a book is accepted exactly when the book is not crossed; it then restores
      every level, whatever the receiver held before. A fresh book's image is always accepted. */
  lemma ImageRestores(b: BookState, onto: BookState)
    requires b.WellFormed()
    ensures var bids, asks := BestFirst(b.levels.bids, Bid), BestFirst(b.levels.asks, Ask);
            && (ValidSnapshot(bids, asks) <==> !Crossed(b.levels))
            && (!b.stale ==> ValidSnapshot(bids, asks))
            && (ValidSnapshot(bids, asks) ==> AfterSnapshot(onto, bids, asks) == BookState(b.levels, false))
  {
    ListingIsValid(b.levels.bids, Bid);
    ListingIsValid(b.levels.asks, Ask);
  }

  // ------------------------------------------------------------------ the mutable book

  ghost predicate IsBest(best: Option<Price>, m: map<Price, int>, side: Side) {
    match best
    case None => m == map[]
    case Some(p) => if side.Bid? then IsMax(m.Keys, p) else IsMin(m.Keys, p)
  }

  lemma CrossedIffBests(l: Levels, bid: Option<Price>, ask: Option<Price>)
    requires IsBest(bid, l.bids, Bid) && IsBest(ask, l.asks, Ask)
    ensures Crossed(l) <==> bid.Some? && ask.Some? && bid.value.rank >= ask.value.rank
  {
  }

  function BestOf(m: map<Price, int>, side: Side): (best: Option<Price>)
    ensures IsBest(best, m, side)
  {
    if m.Keys == {} then None
    else if side.Bid? then Some(MaxOf(m.Keys))
    else Some(MinOf(m.Keys))
  }

  lemma BestFollows(m: map<Price, int>, side: Side, price: Price, count: int, best: Option<Price>)
    requires IsBest(best, m, side)
    ensures best != Some(price) ==> IsBest(best, m - {price}, side)
    ensures side.Bid? && (best.None? || price.rank > best.value.rank) ==> IsBest(Some(price), m[price := count], side)
    ensures side.Ask? && (best.None? || price.rank < best.value.rank) ==> IsBest(Some(price), m[price := count], side)
    ensures side.Bid? && best.Some? && price.rank <= best.value.rank ==> IsBest(best, m[price := count], side)
    ensures side.Ask? && best.Some? && price.rank >= best.value.rank ==> IsBest(best, m[price := count], side)
  {
    assert m[price := count].Keys == m.Keys + {price};
    assert (m - {price}).Keys == m.Keys - {price};
  }

  class Book {
    const ticker: Ticker
    var bids: map<Price, int>
    var asks: map<Price, int>
    var bestBid: Option<Price>
    var bestAsk: Option<Price>
    var stale: bool
    var lastTs: Option<int>

    /** Cached bests are the true extremes, counts are positive, a fresh book is not crossed. */
    ghost predicate Valid()
      reads this
    {
      && View().WellFormed()
      && IsBest(bestBid, bids, Bid) && IsBest(bestAsk, asks, Ask)
    }

    function View(): BookState
      reads this
    {
      BookState(Levels(bids, asks), stale)
    }

    constructor (ticker: Ticker)
      ensures Valid() && this.ticker == ticker && View() == EMPTY_BOOK && lastTs == None
    {
      this.ticker := ticker;
      bids, asks, bestBid, bestAsk, stale, lastTs := map[], map[], None, None, true, None;
    }

    /** `false` stands for the raised `BookInvariantError`. */
    method ApplySnapshot(newBids: seq<Level>, newAsks: seq<Level>, ts: Option<int>) returns (ok: bool)
      requires Valid()
      modifies this
      ensures Valid()
      ensures ok <==> ValidSnapshot(newBids, newAsks)
      ensures View() == AfterSnapshot(old(View()), newBids, newAsks)
      ensures lastTs == if ok then ts else old(lastTs)
    {
      var bidsOk, bidMap := Collect(newBids);
      if !bidsOk { stale := true; return false; }
      var asksOk, askMap := Collect(newAsks);
      if !asksOk { stale := true; return false; }
      MapOfEntries(newBids);
      MapOfEntries(newAsks);
      var bid, ask := BestOf(bidMap, Bid), BestOf(askMap, Ask);
      CrossedIffBests(Levels(bidMap, askMap), bid, ask);
      if bid.Some? && ask.Some? && bid.value.rank >= ask.value.rank {
        stale := true;
        return false;
      }
      bids, asks, bestBid, bestAsk, stale, lastTs := bidMap, askMap, bid, ask, false, ts;
      return true;
    }

    static method Collect(ls: seq<Level>) returns (ok: bool, out: map<Price, int>)
      ensures ok <==> ValidSide(ls)
      ensures ok ==> out == MapOf(ls)
    {
      out := map[];
      for k := 0 to |ls|
        invariant ValidSide(ls[..k])
        invariant out == MapOf(ls[..k])
      {
        assert ls[..k + 1] == ls[..k] + [ls[k]];
        ValidSideSnoc(ls[..k], ls[k]);
        PrefixIsValid(ls, k + 1);
        if ls[k].count <= 0 || ls[k].price in out {
          return false, out;
        }
        out := out[ls[k].price := ls[k].count];
      }
      assert ls[..|ls|] == ls;
      return true, out;
    }

    /** `Ignored` is the `False` of a stale book; `Broken` stands for the raised `BookInvariantError`. */
    method ApplyDelta(side: Side, price: Price, delta: int, ts: Option<int>) returns (r: DeltaResult)
      requires Valid()
      modifies this
      ensures Valid()
      ensures r == DeltaVerdict(old(View()), side, price, delta)
      ensures View() == AfterDelta(old(View()), side, price, delta)
      ensures lastTs == if r.Applied? && ts.Some? then ts else old(lastTs)
    {
      if stale { return Ignored; }
      var updated := CountAt(if side.Bid? then bids else asks, price) + delta;
      if updated < 0 {
        stale := true;
        return Broken;
      }
      ghost var before := View();
      SetLevel(side, price, updated);
      ghost var moved := Levels(bids, asks);
      assert moved == Moved(before.levels, side, price, delta);
      CrossedIffBests(moved, bestBid, bestAsk);
      assert View() == BookState(moved, false);
      if bestBid.Some? && bestAsk.Some? && bestBid.value.rank >= bestAsk.value.rank {
        stale := true;
        return Broken;
      }
      if ts.Some? { lastTs := ts; }
      return Applied;
    }

    /** The dictionary write of `apply_delta` and the cached best that follows it. */
    method SetLevel(side: Side, price: Price, count: int)
      requires Positive(bids) && Positive(asks) && count >= 0
      requires IsBest(bestBid, bids, Bid) && IsBest(bestAsk, asks, Ask)
      modifies this`bids, this`asks, this`bestBid, this`bestAsk
      ensures Levels(bids, asks) ==
              WithSide(old(Levels(bids, asks)), side, WithCount(old(SideOf(Levels(bids, asks), side)), price, count))
      ensures Positive(bids) && Positive(asks)
      ensures IsBest(bestBid, bids, Bid) && IsBest(bestAsk, asks, Ask)
    {
      if side.Bid? {
        BestFollows(bids, Bid, price, count, bestBid);
        if count == 0 {
          bids := bids - {price};
          if bestBid == Some(price) { bestBid := BestOf(bids, Bid); }
        } else {
          bids := bids[price := count];
          if bestBid.None? || price.rank > bestBid.value.rank { bestBid := Some(price); }
        }
      } else {
        BestFollows(asks, Ask, price, count, bestAsk);
        if count == 0 {
          asks := asks - {price};
          if bestAsk == Some(price) { bestAsk := BestOf(asks, Ask); }
        } else {
          asks := asks[price := count];
          if bestAsk.None? || price.rank < bestAsk.value.rank { bestAsk := Some(price); }
        }
      }
    }

    method MarkStale()
      requires Valid()
      modifies this`stale
      ensures Valid() && View() == old(View()).(stale := true)
    {
      stale := true;
    }

    /** The levels of a side, best first; in a valid book the first of them is at the cached best. */
    function LevelsOf(side: Side): (ls: seq<Level>)
      reads this
      ensures SameSide(ls, SideOf(View().levels, side))
      ensures |ls| == LevelCount(side)
      ensures forall i, j :: 0 <= i < j < |ls| ==> Ahead(side, ls[i], ls[j])
      ensures Valid() ==>
                var best := if side.Bid? then bestBid else bestAsk;
                best == if ls == [] then None else Some(ls[0].price)
    {
      ListingIsBestFirst(SideOf(View().levels, side), side);
      ListingBeginsAtBest(SideOf(View().levels, side), side, if side.Bid? then bestBid else bestAsk);
      BestFirst(SideOf(View().levels, side), side)
    }

    function LevelCount(side: Side): nat
      reads this
    {
      |SideOf(View().levels, side)|
    }
  }

  // ------------------------------------------------------------------ comparing two books

  datatype LevelDiff = LevelDiff(side: Side, price: Price, countA: int, countB: int)

  ghost predicate Differs(a: Levels, b: Levels, d: LevelDiff) {
    && d.countA == CountAt(SideOf(a, d.side), d.price)
    && d.countB == CountAt(SideOf(b, d.side), d.price)
    && d.countA != d.countB
  }

  ghost predicate AscendingPrices(out: seq<LevelDiff>) {
    forall i, j :: 0 <= i < j < |out| ==> out[i].price.rank < out[j].price.rank
  }

  /** Bids are reported before asks, and each side upward by price. */
  ghost predicate InDiffOrder(out: seq<LevelDiff>) {
    forall i, j :: 0 <= i < j < |out| ==>
                     || (out[i].side.Bid? && out[j].side.Ask?)
                     || (out[i].side == out[j].side && out[i].price.rank < out[j].price.rank)
  }

  lemma JoinDiffs(a: Levels, b: Levels, bidDiffs: seq<LevelDiff>, askDiffs: seq<LevelDiff>)
    requires Positive(a.bids) && Positive(a.asks) && Positive(b.bids) && Positive(b.asks)
    requires forall d :: d in bidDiffs <==> SideDiffers(Bid, a.bids, b.bids, d)
    requires forall d :: d in askDiffs <==> SideDiffers(Ask, a.asks, b.asks, d)
    requires AscendingPrices(bidDiffs) && AscendingPrices(askDiffs)
    ensures forall d :: d in bidDiffs + askDiffs <==> Differs(a, b, d)
    ensures Distinct(bidDiffs + askDiffs) && InDiffOrder(bidDiffs + askDiffs)
    ensures bidDiffs + askDiffs == [] <==> a == b
  {
    assert forall d :: d in bidDiffs + askDiffs <==> d in bidDiffs || d in askDiffs;
    assert forall i :: 0 <= i < |bidDiffs| ==> bidDiffs[i] in bidDiffs;
    assert forall i :: 0 <= i < |askDiffs| ==> askDiffs[i] in askDiffs;
    SidesAgree(Bid, a.bids, b.bids, bidDiffs);
    SidesAgree(Ask, a.asks, b.asks, askDiffs);
  }

  ghost function AllDiffs(a: Levels, b: Levels): seq<LevelDiff> {
    DiffList(Bid, Sorted(a.bids.Keys + b.bids.Keys), a.bids, b.bids) +
    DiffList(Ask, Sorted(a.asks.Keys + b.asks.Keys), a.asks, b.asks)
  }

  lemma AllDiffsAre(a: Levels, b: Levels)
    requires Positive(a.bids) && Positive(a.asks) && Positive(b.bids) && Positive(b.asks)
    ensures forall d :: d in AllDiffs(a, b) <==> Differs(a, b, d)
    ensures Distinct(AllDiffs(a, b)) && InDiffOrder(AllDiffs(a, b))
    ensures AllDiffs(a, b) == [] <==> a == b
  {
    DiffListIsComplete(Bid, a.bids, b.bids);
    DiffListIsComplete(Ask, a.asks, b.asks);
    JoinDiffs(a, b, DiffList(Bid, Sorted(a.bids.Keys + b.bids.Keys), a.bids, b.bids),
              DiffList(Ask, Sorted(a.asks.Keys + b.asks.Keys), a.asks, b.asks));
  }

  /** `diff` of two books: exactly the level positions whose counts differ, each once and in order. */
  method DiffBooks(a: Book, b: Book) returns (out: seq<LevelDiff>)
    requires a.Valid() && b.Valid()
    ensures forall d :: d in out <==> Differs(a.View().levels, b.View().levels, d)
    ensures Distinct(out) && InDiffOrder(out)
    ensures out == [] <==> a.View().levels == b.View().levels
  {
    var bidPrices := SortKeys(a.bids.Keys + b.bids.Keys);
    var askPrices := SortKeys(a.asks.Keys + b.asks.Keys);
    var bidDiffs := DiffSide(Bid, bidPrices, a.bids, b.bids);
    var askDiffs := DiffSide(Ask, askPrices, a.asks, b.asks);
    out := bidDiffs + askDiffs;
    AllDiffsAre(a.View().levels, b.View().levels);
  }

  ghost predicate SideDiffers(side: Side, a: map<Price, int>, b: map<Price, int>, d: LevelDiff) {
    d.side == side && d.countA == CountAt(a, d.price) && d.countB == CountAt(b, d.price) && d.countA != d.countB
  }

  lemma SidesAgree(side: Side, a: map<Price, int>, b: map<Price, int>, out: seq<LevelDiff>)
    requires Positive(a) && Positive(b)
    requires forall d :: d in out <==> SideDiffers(side, a, b, d)
    ensures out == [] <==> a == b
  {
    if out == [] {
      forall p | p in a || p in b
        ensures p in a && p in b && a[p] == b[p]
      {
        var d := LevelDiff(side, p, CountAt(a, p), CountAt(b, p));
        assert !SideDiffers(side, a, b, d) by { assert d !in out; }
      }
    } else {
      assert out[0] in out;
    }
  }

  ghost function DiffList(side: Side, prices: seq<Price>, a: map<Price, int>, b: map<Price, int>): seq<LevelDiff> {
    if prices == [] then [] else
      var p := prices[|prices| - 1];
      DiffList(side, prices[..|prices| - 1], a, b) +
      (if CountAt(a, p) != CountAt(b, p) then [LevelDiff(side, p, CountAt(a, p), CountAt(b, p))] else [])
  }

  lemma {:induction false} DiffListed(side: Side, prices: seq<Price>, a: map<Price, int>, b: map<Price, int>)
    requires Ascending(prices)
    ensures forall d :: d in DiffList(side, prices, a, b) <==> SideDiffers(side, a, b, d) && d.price in prices
    ensures AscendingPrices(DiffList(side, prices, a, b))
  {
    if prices != [] {
      var init, p := prices[..|prices| - 1], prices[|prices| - 1];
      var before := DiffList(side, init, a, b);
      DiffListed(side, init, a, b);
      assert prices == init + [p];
      forall i | 0 <= i < |before| ensures before[i].price.rank < p.rank {
        assert before[i] in before;
      }
    }
  }

  lemma DiffListIsComplete(side: Side, a: map<Price, int>, b: map<Price, int>)
    ensures var out := DiffList(side, Sorted(a.Keys + b.Keys), a, b);
            (forall d :: d in out <==> SideDiffers(side, a, b, d)) && AscendingPrices(out)
  {
    DiffListed(side, Sorted(a.Keys + b.Keys), a, b);
    forall d | SideDiffers(side, a, b, d) ensures d.price in Sorted(a.Keys + b.Keys) {
      assert d.price in a.Keys + b.Keys;
    }
  }

  method DiffSide(side: Side, prices: seq<Price>, a: map<Price, int>, b: map<Price, int>) returns (out: seq<LevelDiff>)
    ensures out == DiffList(side, prices, a, b)
  {
    out := [];
    for k := 0 to |prices|
      invariant out == DiffList(side, prices[..k], a, b)
    {
      assert prices[..k + 1][..k] == prices[..k];
      var countA, countB := CountAt(a, prices[k]), CountAt(b, prices[k]);
      if countA != countB {
        out := out + [LevelDiff(side, prices[k], countA, countB)];
      }
    }
    assert prices[..|prices|] == prices;
  }

  // ------------------------------------------------------------------ keyframes

  datatype KeyframeRow = KeyframeRow(ticker: Ticker, side: Option<Side>, price: Price, count: int, ts: Option<int>,
      stale: bool)

  /** What a keyframe keeps of a book. */
  datatype Kept = Kept(state: BookState, ts: Option<int>)

  function RowsOf(ticker: Ticker, side: Side, ls: seq<Level>, k: Kept): (r: seq<KeyframeRow>)
    ensures |r| == |ls|
    ensures forall i ::
            0 <= i < |ls| ==> r[i] == KeyframeRow(ticker, Some(side), ls[i].price, ls[i].count, k.ts, k.state.stale)
  {
    seq(|ls|, i requires 0 <= i < |ls| => KeyframeRow(ticker, Some(side), ls[i].price, ls[i].count, k.ts,
        k.state.stale))
  }

  /** The rows of `Book.to_keyframe`, by price: one a level, or one without a side for an empty book. */
  function ToKeyframe(ticker: Ticker, k: Kept): (rows: seq<KeyframeRow>)
    ensures rows != []
            && forall i ::
                 0 <= i < |rows| ==> rows[i].ticker == ticker && rows[i].ts == k.ts && rows[i].stale == k.state.stale
  {
    var rows := RowsOf(ticker, Bid, Listed(k.state.levels.bids), k)
        + RowsOf(ticker, Ask, Listed(k.state.levels.asks), k);
    if rows == [] then [KeyframeRow(ticker, None, Key(0), 0, k.ts, k.state.stale)] else rows
  }

  /** A keyframe of the book: those rows, in whatever order its dictionaries keep them. */
  ghost predicate IsKeyframe(t: Ticker, k: Kept, rows: seq<KeyframeRow>) {
    rows != [] && multiset(rows) == multiset(ToKeyframe(t, k))
  }

  lemma RowsAreTheirs(t: Ticker, side: Side, m: map<Price, int>, k: Kept)
    ensures RowsOn(RowsOf(t, side, Listed(m), k), side, m)
  {
    ListedLevels(m);
    assert forall i :: 0 <= i < |Listed(m)| ==> Listed(m)[i] in Listed(m);
  }

  ghost predicate RowsSay(rows: seq<KeyframeRow>, l: Levels) {
    && (forall r :: r in rows && r.side == Some(Bid) ==> r.price in l.bids && l.bids[r.price] == r.count)
    && (forall r :: r in rows && r.side == Some(Ask) ==> r.price in l.asks && l.asks[r.price] == r.count)
    && (forall r :: r in rows && r.side == None ==> l == Levels(map[], map[]))
    && |rows| == if l == Levels(map[], map[]) then 1 else |l.bids| + |l.asks|
  }

  ghost predicate RowsOn(rows: seq<KeyframeRow>, side: Side, m: map<Price, int>) {
    |rows| == |m| && forall r :: r in rows ==> r.side == Some(side) && r.price in m && m[r.price] == r.count
  }

  lemma JoinedRowsSay(up: seq<KeyframeRow>, down: seq<KeyframeRow>, l: Levels)
    requires RowsOn(up, Bid, l.bids) && RowsOn(down, Ask, l.asks) && up + down != []
    ensures RowsSay(up + down, l)
  {
    assert forall r :: r in up + down <==> r in up || r in down;
    assert |up + down| == |l.bids| + |l.asks|;
  }

  lemma ToKeyframeSays(t: Ticker, k: Kept)
    ensures RowsSay(ToKeyframe(t, k), k.state.levels)
  {
    var up, down := RowsOf(t, Bid, Listed(k.state.levels.bids), k), RowsOf(t, Ask, Listed(k.state.levels.asks), k);
    RowsAreTheirs(t, Bid, k.state.levels.bids, k);
    RowsAreTheirs(t, Ask, k.state.levels.asks, k);
    if up + down == [] {
      assert |up| == 0 && |down| == 0;
      assert k.state.levels.bids == map[] && k.state.levels.asks == map[];
    } else {
      JoinedRowsSay(up, down, k.state.levels);
    }
  }

  /** A keyframe has a row for every level, with its side, price and count, or the one row without a side of a book
      that has no level. */
  lemma KeyframeSays(t: Ticker, k: Kept, rows: seq<KeyframeRow>)
    requires IsKeyframe(t, k, rows)
    ensures RowsSay(rows, k.state.levels)
  {
    var first := ToKeyframe(t, k);
    ToKeyframeSays(t, k);
    assert |multiset(rows)| == |multiset(first)|;
    forall r | r in rows ensures r in first {
      assert r in multiset(rows);
    }
  }

  function SideRows(rows: seq<KeyframeRow>, side: Side): seq<Level> {
    if rows == [] then []
    else
      var r := rows[|rows| - 1];
      SideRows(rows[..|rows| - 1], side) + (if r.side == Some(side) then [Level(r.price, r.count)] else [])
  }

  /** The book of one ticker's rows; `None` stands for the raised error. */
  ghost function FromKeyframe(rows: seq<KeyframeRow>): Option<Kept>
    requires rows != []
  {
    var bids, asks := SideRows(rows, Bid), SideRows(rows, Ask);
    if ValidSnapshot(bids, asks)
        then Some(Kept(AfterSnapshot(EMPTY_BOOK, bids, asks).(stale := rows[0].stale), rows[0].ts))
    else None
  }

  lemma {:induction false} SideRowsConcat(a: seq<KeyframeRow>, b: seq<KeyframeRow>, side: Side)
    ensures SideRows(a + b, side) == SideRows(a, side) + SideRows(b, side)
  {
    if b == [] {
      assert a + b == a;
    } else {
      SideRowsConcat(a, b[..|b| - 1], side);
      assert (a + b)[..|a + b| - 1] == a + b[..|b| - 1];
    }
  }

  lemma {:induction false} SideRowsOf(t: Ticker, side: Side, ls: seq<Level>, k: Kept, wanted: Side)
    ensures SideRows(RowsOf(t, side, ls, k), wanted) == if side == wanted then ls else []
  {
    if ls != [] {
      var rows := RowsOf(t, side, ls, k);
      SideRowsOf(t, side, ls[..|ls| - 1], k, wanted);
      assert rows[..|rows| - 1] == RowsOf(t, side, ls[..|ls| - 1], k);
      assert ls == ls[..|ls| - 1] + [ls[|ls| - 1]];
    }
  }

  lemma KeyframeSides(t: Ticker, k: Kept, side: Side)
    ensures SideRows(ToKeyframe(t, k), side) == Listed(SideOf(k.state.levels, side))
  {
    var bids, asks := Listed(k.state.levels.bids), Listed(k.state.levels.asks);
    var up, down := RowsOf(t, Bid, bids, k), RowsOf(t, Ask, asks, k);
    SideRowsConcat(up, down, side);
    SideRowsOf(t, Bid, bids, k, side);
    SideRowsOf(t, Ask, asks, k, side);
    assert SideRows(up + down, side) == if side.Bid? then bids else asks;
    if up + down == [] {
      assert |bids| == 0 && |asks| == 0;
      EmptyRow(KeyframeRow(t, None, Key(0), 0, k.ts, k.state.stale), side);
    }
  }

  lemma EmptyRow(r: KeyframeRow, side: Side)
    requires r.side.None?
    ensures SideRows([r], side) == []
  {
    assert [r][..0] == [];
  }

  ghost predicate RowsAlike(rows: seq<KeyframeRow>, t: Ticker, ts: Option<int>, stale: bool) {
    forall i :: 0 <= i < |rows| ==> rows[i].ticker == t && rows[i].ts == ts && rows[i].stale == stale
  }

  /** A level is listed as often as it has a row. */
  lemma {:induction false} SideRowsCount(
      rows: seq<KeyframeRow>, t: Ticker, ts: Option<int>, stale: bool, side: Side, l: Level)
    requires RowsAlike(rows, t, ts, stale)
    ensures multiset(SideRows(rows, side))[l] == multiset(rows)[KeyframeRow(t, Some(side), l.price, l.count, ts, stale)]
  {
    if rows != [] {
      var init, last := rows[..|rows| - 1], rows[|rows| - 1];
      assert rows == init + [last];
      SideRowsCount(init, t, ts, stale, side, l);
      CountSnoc(init, last, KeyframeRow(t, Some(side), l.price, l.count, ts, stale));
      CountSnoc(SideRows(init, side), Level(last.price, last.count), l);
    }
  }

  lemma KeyframeIsAlike(t: Ticker, k: Kept, rows: seq<KeyframeRow>)
    requires IsKeyframe(t, k, rows)
    ensures RowsAlike(rows, t, k.ts, k.state.stale)
  {
    forall i | 0 <= i < |rows| ensures rows[i].ticker == t && rows[i].ts == k.ts && rows[i].stale == k.state.stale {
      assert rows[i] in multiset(rows);
      assert rows[i] in ToKeyframe(t, k);
    }
  }

  lemma KeyframeSidesShuffled(t: Ticker, k: Kept, rows: seq<KeyframeRow>, side: Side)
    requires IsKeyframe(t, k, rows)
    ensures Shuffled(Listed(SideOf(k.state.levels, side)), SideRows(rows, side))
  {
    KeyframeSides(t, k, side);
    KeyframeIsAlike(t, k, rows);
    var first := ToKeyframe(t, k);
    forall l: Level ensures multiset(SideRows(first, side))[l] == multiset(SideRows(rows, side))[l] {
      SideRowsCount(first, t, k.ts, k.state.stale, side, l);
      SideRowsCount(rows, t, k.ts, k.state.stale, side, l);
    }
  }

  /** A keyframe restores its book exactly when the book was not crossed, in whatever order it has the rows. A book
      that a delta left crossed is stale with its crossed levels still in place, and its own keyframe does not load. */
  lemma KeyframeRoundTrip(t: Ticker, k: Kept, rows: seq<KeyframeRow>)
    requires k.state.WellFormed() && IsKeyframe(t, k, rows)
    ensures FromKeyframe(rows) == if Crossed(k.state.levels) then None else Some(k)
  {
    KeyframeIsAlike(t, k, rows);
    KeyframeSidesShuffled(t, k, rows, Bid);
    KeyframeSidesShuffled(t, k, rows, Ask);
    ListingIsValid(k.state.levels.bids, Ask);
    ListingIsValid(k.state.levels.asks, Ask);
    ShuffledSide(Listed(k.state.levels.bids), SideRows(rows, Bid));
    ShuffledSide(Listed(k.state.levels.asks), SideRows(rows, Ask));
  }

  lemma CrossedKeyframeDoesNotLoad() returns (b: BookState)
    ensures b.WellFormed()
            && b == AfterDelta(AfterSnapshot(EMPTY_BOOK, [Level(Key(40), 1)], [Level(Key(60), 1)]), Bid, Key(70), 1)
    ensures forall rows :: IsKeyframe(Key(0), Kept(b, None), rows) ==> FromKeyframe(rows) == None
  {
    var bids, asks := [Level(Key(40), 1)], [Level(Key(60), 1)];
    assert bids[..0] == [] && asks[..0] == [];
    assert MapOf(bids) == map[Key(40) := 1] && MapOf(asks) == map[Key(60) := 1];
    var start := AfterSnapshot(EMPTY_BOOK, bids, asks);
    assert start == BookState(Levels(map[Key(40) := 1], map[Key(60) := 1]), false);
    b := AfterDelta(start, Bid, Key(70), 1);
    assert Key(70) in b.levels.bids && Key(60) in b.levels.asks;
    forall rows | IsKeyframe(Key(0), Kept(b, None), rows)
      ensures FromKeyframe(rows) == None
    {
      KeyframeRoundTrip(Key(0), Kept(b, None), rows);
    }
  }

  // ------------------------------------------------------------------ the keyframes of many books

  function RowsFor(rows: seq<KeyframeRow>, t: Ticker): seq<KeyframeRow> {
    if rows == [] then [] else
        RowsFor(rows[..|rows| - 1], t) + (if rows[|rows| - 1].ticker == t then [rows[|rows| - 1]] else [])
  }

  function TickersIn(rows: seq<KeyframeRow>): set<Ticker> {
    if rows == [] then {} else TickersIn(rows[..|rows| - 1]) + {rows[|rows| - 1].ticker}
  }

  lemma {:induction false} ListedTickersHaveRows(rows: seq<KeyframeRow>, t: Ticker)
    ensures t in TickersIn(rows) <==> RowsFor(rows, t) != []
  {
    if rows != [] { ListedTickersHaveRows(rows[..|rows| - 1], t); }
  }

  ghost function LoadedFor(rows: seq<KeyframeRow>, t: Ticker): Option<Kept> {
    if RowsFor(rows, t) == [] then None else FromKeyframe(RowsFor(rows, t))
  }

  /** `books_from_keyframe_rows`: one ticker whose rows make no book raises for all. */
  ghost predicate Loads(rows: seq<KeyframeRow>) {
    forall t :: t in TickersIn(rows) ==> LoadedFor(rows, t).Some?
  }

  /** Rows that hold the keyframes of some books, in any order and mixed in any way, load if and only if no book is
      crossed, and then load every book as it was. */
  lemma KeyframesRoundTrip(rows: seq<KeyframeRow>, books: map<Ticker, Kept>)
    requires forall t :: t in books ==> books[t].state.WellFormed() && IsKeyframe(t, books[t], RowsFor(rows, t))
    requires TickersIn(rows) == books.Keys
    ensures Loads(rows) <==> forall t :: t in books ==> !Crossed(books[t].state.levels)
    ensures Loads(rows) ==> forall t :: t in books ==> LoadedFor(rows, t) == Some(books[t])
  {
    forall t | t in books
      ensures LoadedFor(rows, t) == if Crossed(books[t].state.levels) then None else Some(books[t])
    {
      KeyframeRoundTrip(t, books[t], RowsFor(rows, t));
    }
  }

  /** The books of some tickers, in turn; the first whose rows make none raises. */
  ghost function LoadedAll(rows: seq<KeyframeRow>, order: seq<Ticker>): Option<map<Ticker, Kept>> {
    if order == [] then Some(map[]) else
      var earlier, last := LoadedAll(rows, order[..|order| - 1]), LoadedFor(rows, order[|order| - 1]);
      if earlier.None? || last.None? then None else Some(earlier.value[order[|order| - 1] := last.value])
  }

  lemma {:induction false} LoadedAllAre(rows: seq<KeyframeRow>, order: seq<Ticker>)
    ensures LoadedAll(rows, order).Some? <==> forall t :: t in order ==> LoadedFor(rows, t).Some?
    ensures LoadedAll(rows, order).Some? ==>
              forall t :: (t in LoadedAll(rows, order).value <==> t in order)
                  && (t in order ==> LoadedFor(rows, t) == Some(LoadedAll(rows, order).value[t]))
  {
    if order != [] {
      LoadedAllAre(rows, order[..|order| - 1]);
      assert order == order[..|order| - 1] + [order[|order| - 1]];
    }
  }

  /** The tickers in the order they first appear, and each one's rows. */
  method GroupRows(rows: seq<KeyframeRow>) returns (order: seq<Ticker>, grouped: map<Ticker, seq<KeyframeRow>>)
    ensures grouped.Keys == TickersIn(rows)
            && forall t :: t in grouped ==> grouped[t] == RowsFor(rows, t) && grouped[t] != []
    ensures forall t :: t in order <==> t in grouped
  {
    order, grouped := [], map[];
    for k := 0 to |rows|
      invariant grouped.Keys == TickersIn(rows[..k]) && forall t :: t in order <==> t in grouped
      invariant forall t :: t in grouped ==> grouped[t] == RowsFor(rows[..k], t)
    {
      var t := rows[k].ticker;
      assert rows[..k + 1][..k] == rows[..k];
      ListedTickersHaveRows(rows[..k], t);
      if t !in grouped { order := order + [t]; }
      grouped := grouped[t := (if t in grouped then grouped[t] else []) + [rows[k]]];
    }
    assert rows[..|rows|] == rows;
    forall t | t in grouped ensures grouped[t] != [] { ListedTickersHaveRows(rows, t); }
  }

  method SplitSides(rows: seq<KeyframeRow>) returns (bids: seq<Level>, asks: seq<Level>)
    ensures bids == SideRows(rows, Bid) && asks == SideRows(rows, Ask)
  {
    bids, asks := [], [];
    for k := 0 to |rows|
      invariant bids == SideRows(rows[..k], Bid) && asks == SideRows(rows[..k], Ask)
    {
      assert rows[..k + 1][..k] == rows[..k];
      if rows[k].side == Some(Bid) { bids := bids + [Level(rows[k].price, rows[k].count)]; }
      if rows[k].side == Some(Ask) { asks := asks + [Level(rows[k].price, rows[k].count)]; }
    }
    assert rows[..|rows|] == rows;
  }

  /** One ticker's book, made and read back. */
  method LoadBook(t: Ticker, rows: seq<KeyframeRow>) returns (kept: Option<Kept>)
    requires rows != []
    ensures kept == FromKeyframe(rows)
  {
    var book := new Book(t);
    var bids, asks := SplitSides(rows);
    var ok := book.ApplySnapshot(bids, asks, rows[0].ts);
    if !ok { return None; }
    if rows[0].stale { book.MarkStale(); }
    kept := Some(Kept(book.View(), book.lastTs));
  }

  lemma OneFailsAll(rows: seq<KeyframeRow>, order: seq<Ticker>, t: Ticker)
    requires t in order && LoadedFor(rows, t).None?
    ensures LoadedAll(rows, order).None?
  {
    LoadedAllAre(rows, order);
  }

  method LoadInOrder(
      rows: seq<KeyframeRow>, order: seq<Ticker>, grouped: map<Ticker, seq<KeyframeRow>>)
      returns (books: Option<map<Ticker, Kept>>)
    requires forall t :: t in order ==> t in grouped && grouped[t] == RowsFor(rows, t) && grouped[t] != []
    ensures books == LoadedAll(rows, order)
  {
    var loaded: map<Ticker, Kept> := map[];
    for k := 0 to |order|
      invariant LoadedAll(rows, order[..k]) == Some(loaded)
    {
      assert order[k] in order && order[..k + 1][..k] == order[..k];
      var kept := LoadBook(order[k], grouped[order[k]]);
      if kept.None? {
        OneFailsAll(rows, order, order[k]);
        return None;
      }
      loaded := loaded[order[k] := kept.value];
    }
    assert order[..|order|] == order;
    books := Some(loaded);
  }

  /** Every ticker's book as its rows say; `None` stands for the raised error. */
  method BooksFromKeyframeRows(rows: seq<KeyframeRow>) returns (books: Option<map<Ticker, Kept>>)
    ensures books.Some? <==> Loads(rows)
    ensures books.Some? ==>
            books.value.Keys == TickersIn(rows)
            && forall t :: t in books.value ==> LoadedFor(rows, t) == Some(books.value[t])
  {
    var order, grouped := GroupRows(rows);
    LoadedAllAre(rows, order);
    books := LoadInOrder(rows, order, grouped);
  }
}
