/** What the orders of `src/tape/recorder/universe.py` mean, in terms of the markets themselves. */
module Ranking {
  import opened Prelude
  import opened Universe

  /** Keys of one length are ordered by the first place where they differ. */
  lemma {:induction false} FirstDifference(a: seq<int>, b: seq<int>, i: nat)
    requires |a| == |b| && i < |a| && a[i] != b[i] && forall j :: 0 <= j < i ==> a[j] == b[j]
    ensures Before(a, b) <==> a[i] < b[i]
  {
    if i > 0 {
      assert a[0] == b[0];
      FirstDifference(a[1..], b[1..], i - 1);
    }
  }

  // ------------------------------------------------------------------ the freshest copy

  /** A close or price that is not known counts as -1. */
  function CloseValue(n: Option<int>): int {
    match n
    case None => -1
    case Some(v) => v
  }

  function PriceValue(n: Option<nat>): int {
    match n
    case None => -1
    case Some(v) => v
  }

  function TextValue(s: Option<Key>): int {
    match s
    case None => EMPTY_TEXT.rank
    case Some(k) => k.rank
  }

  /** The copy kept of two: the one with the larger volume, or with the larger value in the first of the other
      fields in which they differ. */
  ghost predicate Later(a: Market, b: Market) {
    if a.volume != b.volume then a.volume > b.volume
    else if CloseValue(a.close) != CloseValue(b.close) then CloseValue(a.close) > CloseValue(b.close)
    else if a.status.rank != b.status.rank then a.status.rank > b.status.rank
    else if a.event.rank != b.event.rank then a.event.rank > b.event.rank
    else if a.series.rank != b.series.rank then a.series.rank > b.series.rank
    else if a.shard != b.shard then a.shard > b.shard
    else if a.mve != b.mve then a.mve
    else if TextValue(a.strike) != TextValue(b.strike) then TextValue(a.strike) > TextValue(b.strike)
    else if PriceValue(a.bid) != PriceValue(b.bid) then PriceValue(a.bid) > PriceValue(b.bid)
    else if PriceValue(a.ask) != PriceValue(b.ask) then PriceValue(a.ask) > PriceValue(b.ask)
    else PriceValue(a.last) > PriceValue(b.last)
  }

  lemma LaterPlaces(a: Market, b: Market, x: seq<int>, y: seq<int>)
    requires x == Freshness(b) && y == Freshness(a)
    ensures x == y ==> !Later(a, b)
    ensures x != y ==> exists i :: 0 <= i < |x| && x[i] != y[i] && (forall j :: 0 <= j < i ==> x[j] == y[j])
                                   && (Later(a, b) <==> x[i] < y[i])
  {
    if x == y {
      assert x[0] == y[0] && x[1] == y[1] && x[2] == y[2] && x[3] == y[3] && x[4] == y[4] && x[5] == y[5];
      assert x[6] == y[6] && x[7] == y[7] && x[8] == y[8] && x[9] == y[9] && x[10] == y[10];
    } else {
      var i := if x[0] != y[0] then 0 else if x[1] != y[1] then 1 else if x[2] != y[2] then 2
        else if x[3] != y[3] then 3 else if x[4] != y[4] then 4 else if x[5] != y[5] then 5
        else if x[6] != y[6] then 6 else if x[7] != y[7] then 7 else if x[8] != y[8] then 8
        else if x[9] != y[9] then 9 else 10;
      assert |x| == 11 && |y| == 11;
      assert x[i] != y[i];
    }
  }

  lemma FresherMeans(a: Market, b: Market)
    ensures Fresher(a, b) <==> Later(a, b)
  {
    var x, y := Freshness(b), Freshness(a);
    LaterPlaces(a, b, x, y);
    if x == y {
      BeforeIsTotal(x, y);
    } else {
      var i :| 0 <= i < |x| && x[i] != y[i] && (forall j :: 0 <= j < i ==> x[j] == y[j])
          && (Later(a, b) <==> x[i] < y[i]);
      FirstDifference(x, y, i);
    }
  }

  /** Of each listed ticker the copy kept is one of its copies, and none of them is later. */
  lemma LatestIsKept(ms: seq<Market>, t: Ticker, i: nat)
    requires i < |ms| && ms[i].ticker == t
    ensures t in Newest(ms) && Newest(ms)[t] in ms && Newest(ms)[t].ticker == t
    ensures !Later(ms[i], Newest(ms)[t])
  {
    NewestIsFreshest(ms, t);
    FresherMeans(ms[i], Newest(ms)[t]);
  }

  // ------------------------------------------------------------------ the markets of an event

  /** A close that is known comes before one that is not. */
  ghost predicate Sooner(a: Option<int>, b: Option<int>) {
    a.Some? && (b.None? || a.value < b.value)
  }

  /** The larger volume first; of equal volumes the sooner close, and then the ticker. */
  ghost predicate Busier(a: Market, b: Market) {
    || a.volume > b.volume
    || (a.volume == b.volume && Sooner(a.close, b.close))
    || (a.volume == b.volume && a.close == b.close && a.ticker.rank < b.ticker.rank)
  }

  /** The price of YES: half way between the bid and the ask if there are both, rounded down, or else the last. */
  ghost predicate Priced(m: Market, mid: nat) {
    if m.bid.Some? && m.ask.Some? then 2 * mid <= m.bid.value + m.ask.value < 2 * mid + 2
    else m.last == Some(mid)
  }

  ghost predicate Unpriced(m: Market) {
    (m.bid.None? || m.ask.None?) && m.last.None?
  }

  /** How far from 50 cents, in hundredths of a cent. */
  function FromHalf(mid: nat): nat {
    if mid < 5_000 then 5_000 - mid else mid - 5_000
  }

  /** The price the current one is the nearer to: in an event of thresholds the closer to 50 cents, in any other the
      higher. */
  ghost predicate Likelier(x: nat, y: nat, thresholds: bool) {
    if thresholds then FromHalf(x) < FromHalf(y) else x > y
  }

  ghost predicate AsLikely(x: nat, y: nat, thresholds: bool) {
    if thresholds then FromHalf(x) == FromHalf(y) else x == y
  }

  /** A price before none, the likelier price before the other, and then the busier market. */
  ghost predicate NearerPrice(a: Market, b: Market, thresholds: bool) {
    if Unpriced(a) || Unpriced(b) then (Unpriced(b) && !Unpriced(a)) || (Unpriced(a) && Unpriced(b) && Busier(a, b))
    else
      exists x: nat, y: nat ::
        && Priced(a, x) && Priced(b, y)
        && (Likelier(x, y, thresholds) || (AsLikely(x, y, thresholds) && Busier(a, b)))
  }

  ghost predicate Outranks(a: Market, b: Market, nearPrice: bool, thresholds: bool) {
    if nearPrice then NearerPrice(a, b, thresholds) else Busier(a, b)
  }

  lemma BusierMeans(a: Market, b: Market, p: seq<int>)
    ensures Before(p + VolumeOrder(a), p + VolumeOrder(b)) <==> Busier(a, b)
  {
    var x, y := p + VolumeOrder(a), p + VolumeOrder(b);
    var n := |p|;
    assert x[n] == -a.volume && y[n] == -b.volume && x[n + 3] == a.ticker.rank && y[n + 3] == b.ticker.rank;
    assert x[n + 1..n + 3] == CloseOrder(a.close) && y[n + 1..n + 3] == CloseOrder(b.close);
    assert x[n + 1] == CloseOrder(a.close)[0] && x[n + 2] == CloseOrder(a.close)[1];
    assert y[n + 1] == CloseOrder(b.close)[0] && y[n + 2] == CloseOrder(b.close)[1];
    if x[n] != y[n] {
      FirstDifference(x, y, n);
    } else if x[n + 1] != y[n + 1] {
      FirstDifference(x, y, n + 1);
    } else if x[n + 2] != y[n + 2] {
      FirstDifference(x, y, n + 2);
    } else if x[n + 3] != y[n + 3] {
      FirstDifference(x, y, n + 3);
    } else {
      assert x == y;
      BeforeIsTotal(x, y);
    }
  }

  lemma MidMeans(m: Market)
    ensures YesMid(m).None? <==> Unpriced(m)
    ensures forall x: nat :: Priced(m, x) <==> YesMid(m) == Some(x)
  {
  }

  lemma DistanceMeans(x: nat, y: nat, thresholds: bool)
    ensures Distance(x, thresholds) < Distance(y, thresholds) <==> Likelier(x, y, thresholds)
    ensures Distance(x, thresholds) == Distance(y, thresholds) <==> AsLikely(x, y, thresholds)
  {
  }

  lemma NearerPriceMeans(a: Market, b: Market, thresholds: bool)
    ensures Before(MarketRank(a, true, thresholds), MarketRank(b, true, thresholds)) <==> NearerPrice(a, b, thresholds)
  {
    MidMeans(a);
    MidMeans(b);
    var x, y := MarketRank(a, true, thresholds), MarketRank(b, true, thresholds);
    if Unpriced(a) != Unpriced(b) {
      FirstDifference(x, y, 0);
    } else if Unpriced(a) {
      BusierMeans(a, b, [1, 0]);
    } else {
      var i, j := YesMid(a).value, YesMid(b).value;
      assert Priced(a, i) && Priced(b, j);
      DistanceMeans(i, j, thresholds);
      if Distance(i, thresholds) != Distance(j, thresholds) {
        FirstDifference(x, y, 1);
      } else {
        BusierMeans(a, b, [0, Distance(i, thresholds)]);
      }
    }
  }

  lemma OutranksMeans(a: Market, b: Market, nearPrice: bool, thresholds: bool)
    ensures Before(MarketRank(a, nearPrice, thresholds), MarketRank(b, nearPrice, thresholds))
            <==> Outranks(a, b, nearPrice, thresholds)
  {
    if nearPrice { NearerPriceMeans(a, b, thresholds); } else { BusierMeans(a, b, [0, 0]); }
  }

  /** All candidates of the event are thresholds. */
  ghost predicate OfThresholds(listed: Listing, ts: seq<Ticker>, k: EventKey)
    requires Known(listed, ts)
  {
    forall i :: 0 <= i < |ts| && listed[ts[i]].series == k.series && listed[ts[i]].event == k.event ==>
      listed[ts[i]].strike.Some? && listed[ts[i]].strike.value in THRESHOLDS
  }

  lemma ThresholdsMean(listed: Listing, ts: seq<Ticker>, k: EventKey)
    requires Known(listed, ts) && Known(listed, MarketsOf(listed, ts, k))
    ensures AllThresholds(listed, MarketsOf(listed, ts, k)) <==> OfThresholds(listed, ts, k)
  {
    var own := MarketsOf(listed, ts, k);
    if AllThresholds(listed, own) {
      forall i | 0 <= i < |ts| && listed[ts[i]].series == k.series && listed[ts[i]].event == k.event
        ensures listed[ts[i]].strike.Some? && listed[ts[i]].strike.value in THRESHOLDS
      {
        MarketsAre(listed, ts, k, ts[i]);
        var j :| 0 <= j < |own| && own[j] == ts[i];
      }
    }
    if OfThresholds(listed, ts, k) {
      forall j | 0 <= j < |own| ensures listed[own[j]].strike.Some? && listed[own[j]].strike.value in THRESHOLDS {
        MarketsAre(listed, ts, k, own[j]);
        var i :| 0 <= i < |ts| && ts[i] == own[j];
      }
    }
  }

  /** The market `t` goes before `u` in the group's order of the event they are both of. */
  ghost predicate GoesBefore(listed: Listing, ts: seq<Ticker>, g: Group, t: Ticker, u: Ticker)
    requires Known(listed, ts) && t in listed && u in listed
  {
    Outranks(listed[t], listed[u], g.nearPrice, OfThresholds(listed, ts, EventKey(listed[t].series, listed[t].event)))
  }

  lemma RankMeans(listed: Listing, ts: seq<Ticker>, g: Group, k: EventKey, t: Ticker, u: Ticker)
    requires Known(listed, ts) && t in listed && u in listed && k == EventKey(listed[t].series, listed[t].event)
    ensures Before(RankIn(listed, ts, g, k)(t), RankIn(listed, ts, g, k)(u)) <==> GoesBefore(listed, ts, g, t, u)
  {
    MarketsAreKnown(listed, ts);
    ThresholdsMean(listed, ts, k);
    OutranksMeans(listed[t], listed[u], g.nearPrice, AllThresholds(listed, MarketsOf(listed, ts, k)));
  }

  lemma RankTells(listed: Listing, ts: seq<Ticker>, g: Group, k: EventKey, t: Ticker, u: Ticker)
    requires Known(listed, ts) && t in listed && u in listed
    requires k == EventKey(listed[t].series, listed[t].event) == EventKey(listed[u].series, listed[u].event)
    requires listed[t].ticker != listed[u].ticker
    ensures GoesBefore(listed, ts, g, t, u) <==> !GoesBefore(listed, ts, g, u, t)
  {
    RankMeans(listed, ts, g, k, t, u);
    RankMeans(listed, ts, g, k, u, t);
    var x, y := RankIn(listed, ts, g, k)(t), RankIn(listed, ts, g, k)(u);
    assert x[|x| - 1] == listed[t].ticker.rank && y[|y| - 1] == listed[u].ticker.rank;
    BeforeIsTotal(x, y);
  }

  /** Each market is listed under its own ticker. */
  ghost predicate OwnTickers(listed: Listing) {
    forall t :: t in listed ==> listed[t].ticker == t
  }

  lemma NewestHasOwnTickers(ms: seq<Market>)
    ensures OwnTickers(Newest(ms))
  {
    forall t | t in Newest(ms) ensures Newest(ms)[t].ticker == t {
      NewestIsFreshest(ms, t);
    }
  }

  /** Of an event a group takes as many markets as it may, and each goes before every one it leaves. */
  lemma BestAreTaken(listed: Listing, ts: seq<Ticker>, g: Group, k: EventKey, t: Ticker, u: Ticker)
    requires Known(listed, ts) && Distinct(ts) && OwnTickers(listed)
    requires t in TakenOf(listed, ts, g, k)
    requires u in ts && k == EventKey(listed[u].series, listed[u].event) && u !in TakenOf(listed, ts, g, k)
    ensures t in listed && GoesBefore(listed, ts, g, t, u) && |TakenOf(listed, ts, g, k)| == g.perEvent
  {
    TakenAre(listed, ts, g, k, t);
    MarketsAre(listed, ts, k, u);
    BestOfEachEvent(listed, ts, g, k, t, u);
    RankMeans(listed, ts, g, k, u, t);
    RankTells(listed, ts, g, k, t, u);
  }

  /** Those taken of an event are in that order too. */
  lemma TakenInOrder(listed: Listing, ts: seq<Ticker>, g: Group, k: EventKey, i: nat, j: nat)
    requires Known(listed, ts) && Distinct(ts) && OwnTickers(listed) && i < j < |TakenOf(listed, ts, g, k)|
    ensures var r := TakenOf(listed, ts, g, k);
            r[i] in listed && r[j] in listed && GoesBefore(listed, ts, g, r[i], r[j])
  {
    var own, key, r := MarketsOf(listed, ts, k), RankIn(listed, ts, g, k), TakenOf(listed, ts, g, k);
    SortIsOrdered(own, key);
    assert r[i] == SortBy(own, key)[i] && r[j] == SortBy(own, key)[j];
    TakenAre(listed, ts, g, k, r[i]);
    TakenAre(listed, ts, g, k, r[j]);
    RankMeans(listed, ts, g, k, r[j], r[i]);
    RankTells(listed, ts, g, k, r[i], r[j]);
  }

  // ------------------------------------------------------------------ the events of a group

  /** The volumes of the event's candidates, added up. */
  function TotalVolume(listed: Listing, ts: seq<Ticker>, k: EventKey): int
    requires Known(listed, ts)
  {
    if ts == [] then 0 else
      var m := listed[ts[0]];
      (if m.series == k.series && m.event == k.event then m.volume else 0) + TotalVolume(listed, ts[1..], k)
  }

  lemma {:induction false} TotalVolumeSnoc(listed: Listing, ts: seq<Ticker>, t: Ticker, k: EventKey)
    requires Known(listed, ts) && t in listed
    ensures Known(listed, ts + [t])
    ensures TotalVolume(listed, ts + [t], k) == TotalVolume(listed, ts, k)
              + if listed[t].series == k.series && listed[t].event == k.event then listed[t].volume else 0
  {
    if ts != [] {
      TotalVolumeSnoc(listed, ts[1..], t, k);
      assert (ts + [t])[1..] == ts[1..] + [t];
    } else {
      assert [t][1..] == [];
    }
  }

  lemma {:induction false} VolumeMeans(listed: Listing, ts: seq<Ticker>, k: EventKey)
    requires Known(listed, ts) && Known(listed, MarketsOf(listed, ts, k))
    ensures EventVolume(listed, MarketsOf(listed, ts, k)) == TotalVolume(listed, ts, k)
  {
    if ts != [] {
      var init, t := ts[..|ts| - 1], ts[|ts| - 1];
      assert ts == init + [t];
      MarketsAreKnown(listed, init);
      VolumeMeans(listed, init, k);
      TotalVolumeSnoc(listed, init, t, k);
      var own := MarketsOf(listed, init, k);
      if EventOf(listed[t]) == k {
        assert MarketsOf(listed, ts, k) == own + [t];
        assert (own + [t])[..|own|] == own;
      } else {
        assert MarketsOf(listed, ts, k) == own + [] == own;
      }
    }
  }

  /** Which close of the event's candidates is the first that is known. */
  ghost predicate FirstClose(listed: Listing, ts: seq<Ticker>, k: EventKey, close: Option<int>)
    requires Known(listed, ts)
  {
    && (close.Some? ==> exists i :: 0 <= i < |ts| && ClosesAt(listed, ts, k, i, close))
    && forall i :: 0 <= i < |ts| && EventKey(listed[ts[i]].series, listed[ts[i]].event) == k ==>
         !Sooner(listed[ts[i]].close, close)
  }

  ghost predicate ClosesAt(listed: Listing, ts: seq<Ticker>, k: EventKey, i: nat, close: Option<int>)
    requires Known(listed, ts) && i < |ts|
  {
    EventKey(listed[ts[i]].series, listed[ts[i]].event) == k && listed[ts[i]].close == close
  }

  lemma CloseMeans(listed: Listing, ts: seq<Ticker>, k: EventKey)
    requires Known(listed, ts) && Known(listed, MarketsOf(listed, ts, k))
    ensures FirstClose(listed, ts, k, EarliestClose(listed, MarketsOf(listed, ts, k)))
  {
    var own := MarketsOf(listed, ts, k);
    var close := EarliestClose(listed, own);
    if close.Some? {
      var t := EarliestIsOne(listed, own);
      MarketsAre(listed, ts, k, t);
      var i :| 0 <= i < |ts| && ts[i] == t;
      assert ClosesAt(listed, ts, k, i, close);
    }
    forall i | 0 <= i < |ts| && EventKey(listed[ts[i]].series, listed[ts[i]].event) == k
      ensures !Sooner(listed[ts[i]].close, close)
    {
      MarketsAre(listed, ts, k, ts[i]);
      if listed[ts[i]].close.Some? { EarliestIsLeast(listed, own, ts[i]); }
    }
  }

  lemma FirstCloseIsOne(listed: Listing, ts: seq<Ticker>, k: EventKey, a: Option<int>, b: Option<int>)
    requires Known(listed, ts) && FirstClose(listed, ts, k, a) && FirstClose(listed, ts, k, b)
    ensures a == b
  {
    if a.Some? {
      var i :| 0 <= i < |ts| && ClosesAt(listed, ts, k, i, a);
    }
    if b.Some? {
      var i :| 0 <= i < |ts| && ClosesAt(listed, ts, k, i, b);
    }
  }

  /** Of a series the event that closes first goes first, and of those that close together the event's own order. */
  ghost predicate NearerEvent(listed: Listing, ts: seq<Ticker>, j: EventKey, k: EventKey)
    requires Known(listed, ts)
  {
    exists a, b ::
      && FirstClose(listed, ts, j, a) && FirstClose(listed, ts, k, b)
      && (Sooner(a, b) || (a == b && j.event.rank < k.event.rank))
  }

  /** Of a category the event of the larger total volume goes first, then the one that closes first. */
  ghost predicate BusierEvent(listed: Listing, ts: seq<Ticker>, j: EventKey, k: EventKey)
    requires Known(listed, ts)
  {
    || TotalVolume(listed, ts, j) > TotalVolume(listed, ts, k)
    || (TotalVolume(listed, ts, j) == TotalVolume(listed, ts, k) && SoonerEvent(listed, ts, j, k))
  }

  ghost predicate FirstByName(j: EventKey, k: EventKey) {
    j.event.rank < k.event.rank || (j.event.rank == k.event.rank && j.series.rank < k.series.rank)
  }

  ghost predicate SoonerEvent(listed: Listing, ts: seq<Ticker>, j: EventKey, k: EventKey)
    requires Known(listed, ts)
  {
    exists a, b ::
      && FirstClose(listed, ts, j, a) && FirstClose(listed, ts, k, b)
      && (Sooner(a, b) || (a == b && FirstByName(j, k)))
  }

  lemma NearerMeans(listed: Listing, ts: seq<Ticker>, j: EventKey, k: EventKey)
    requires Known(listed, ts)
    ensures Before(NearestKey(listed, ts)(j), NearestKey(listed, ts)(k)) <==> NearerEvent(listed, ts, j, k)
  {
    MarketsAreKnown(listed, ts);
    CloseMeans(listed, ts, j);
    CloseMeans(listed, ts, k);
    var a, b := EarliestClose(listed, MarketsOf(listed, ts, j)), EarliestClose(listed, MarketsOf(listed, ts, k));
    forall c, d | FirstClose(listed, ts, j, c) && FirstClose(listed, ts, k, d) ensures c == a && d == b {
      FirstCloseIsOne(listed, ts, j, a, c);
      FirstCloseIsOne(listed, ts, k, b, d);
    }
    NearestRankMeans(a, b, j, k);
  }

  lemma NearestRankMeans(a: Option<int>, b: Option<int>, j: EventKey, k: EventKey)
    ensures Before(NearestRank(a, j), NearestRank(b, k)) <==> Sooner(a, b) || (a == b && j.event.rank < k.event.rank)
  {
    var x, y := NearestRank(a, j), NearestRank(b, k);
    assert x[0] == CloseOrder(a)[0] && x[1] == CloseOrder(a)[1] && x[2] == j.event.rank;
    assert y[0] == CloseOrder(b)[0] && y[1] == CloseOrder(b)[1] && y[2] == k.event.rank;
    if x[0] != y[0] {
      FirstDifference(x, y, 0);
    } else if x[1] != y[1] {
      FirstDifference(x, y, 1);
    } else if x[2] != y[2] {
      FirstDifference(x, y, 2);
    } else {
      assert x == y;
      BeforeIsTotal(x, y);
    }
  }

  lemma BusiestRankMeans(v: int, w: int, a: Option<int>, b: Option<int>, j: EventKey, k: EventKey)
    ensures Before(BusiestRank(v, a, j), BusiestRank(w, b, k)) <==>
              || v > w
              || (v == w && Sooner(a, b))
              || (v == w && a == b && FirstByName(j, k))
  {
    var x, y := BusiestRank(v, a, j), BusiestRank(w, b, k);
    assert x[0] == -v && x[1] == CloseOrder(a)[0] && x[2] == CloseOrder(a)[1];
    assert y[0] == -w && y[1] == CloseOrder(b)[0] && y[2] == CloseOrder(b)[1];
    assert x[3] == j.event.rank && x[4] == j.series.rank && y[3] == k.event.rank && y[4] == k.series.rank;
    if x[0] != y[0] {
      FirstDifference(x, y, 0);
    } else if x[1] != y[1] {
      FirstDifference(x, y, 1);
    } else if x[2] != y[2] {
      FirstDifference(x, y, 2);
    } else if x[3] != y[3] {
      FirstDifference(x, y, 3);
    } else if x[4] != y[4] {
      FirstDifference(x, y, 4);
    } else {
      assert x == y;
      BeforeIsTotal(x, y);
    }
  }

  lemma BusierEventMeans(listed: Listing, ts: seq<Ticker>, j: EventKey, k: EventKey)
    requires Known(listed, ts)
    ensures Before(BusiestKey(listed, ts)(j), BusiestKey(listed, ts)(k)) <==> BusierEvent(listed, ts, j, k)
  {
    MarketsAreKnown(listed, ts);
    CloseMeans(listed, ts, j);
    CloseMeans(listed, ts, k);
    VolumeMeans(listed, ts, j);
    VolumeMeans(listed, ts, k);
    var a, b := EarliestClose(listed, MarketsOf(listed, ts, j)), EarliestClose(listed, MarketsOf(listed, ts, k));
    forall c, d | FirstClose(listed, ts, j, c) && FirstClose(listed, ts, k, d) ensures c == a && d == b {
      FirstCloseIsOne(listed, ts, j, a, c);
      FirstCloseIsOne(listed, ts, k, b, d);
    }
    BusiestRankMeans(TotalVolume(listed, ts, j), TotalVolume(listed, ts, k), a, b, j, k);
  }

  lemma BusierTotal(listed: Listing, ts: seq<Ticker>, j: EventKey, k: EventKey)
    requires Known(listed, ts) && j != k
    ensures BusierEvent(listed, ts, j, k) <==> !BusierEvent(listed, ts, k, j)
  {
    BusierEventMeans(listed, ts, j, k);
    BusierEventMeans(listed, ts, k, j);
    var x, y := BusiestKey(listed, ts)(j), BusiestKey(listed, ts)(k);
    assert x[3] == j.event.rank && x[4] == j.series.rank && y[3] == k.event.rank && y[4] == k.series.rank;
    BeforeIsTotal(x, y);
  }

  lemma NearerTotal(listed: Listing, ts: seq<Ticker>, j: EventKey, k: EventKey)
    requires Known(listed, ts) && j != k && j.series == k.series
    ensures NearerEvent(listed, ts, j, k) <==> !NearerEvent(listed, ts, k, j)
  {
    NearerMeans(listed, ts, j, k);
    NearerMeans(listed, ts, k, j);
    var x, y := NearestKey(listed, ts)(j), NearestKey(listed, ts)(k);
    assert x[2] == j.event.rank && y[2] == k.event.rank;
    BeforeIsTotal(x, y);
  }

  /** Some candidate of the event closes no later than the group looks ahead, if it only looks so far. */
  ghost predicate SoonEnough(listed: Listing, ts: seq<Ticker>, g: Group, now: int, k: EventKey)
    requires Known(listed, ts)
  {
    g.maxHours.Some? ==>
      exists i :: 0 <= i < |ts| && EventKey(listed[ts[i]].series, listed[ts[i]].event) == k
        && listed[ts[i]].close.Some? && listed[ts[i]].close.value <= now + 3_600 * g.maxHours.value
  }

  lemma SoonEnoughMeans(listed: Listing, ts: seq<Ticker>, g: Group, now: int, k: EventKey)
    requires Known(listed, ts)
    ensures InHorizon(listed, ts, k, g, now) <==> SoonEnough(listed, ts, g, now, k)
  {
    HorizonMeans(listed, ts, k, g, now);
  }

  /** An event of the candidates the group may choose: soon enough, and of one of its series or busy enough. */
  ghost predicate Qualifies(listed: Listing, ts: seq<Ticker>, g: Group, floor: int, now: int, k: EventKey)
    requires Known(listed, ts)
  {
    && (exists i :: 0 <= i < |ts| && EventKey(listed[ts[i]].series, listed[ts[i]].event) == k)
    && SoonEnough(listed, ts, g, now, k)
    && match g.selector
       case BySeries(series) => k.series in series
       case ByCategory(_) => TotalVolume(listed, ts, k) >= floor
  }

  lemma EventIsThere(listed: Listing, ts: seq<Ticker>, k: EventKey)
    requires Known(listed, ts)
    ensures k in EventsOf(listed, ts)
            <==> exists i :: 0 <= i < |ts| && EventKey(listed[ts[i]].series, listed[ts[i]].event) == k
  {
    EventsAre(listed, ts, k);
    var own := MarketsOf(listed, ts, k);
    if own != [] {
      MarketsAre(listed, ts, k, own[0]);
      var i :| 0 <= i < |ts| && ts[i] == own[0];
      assert EventKey(listed[ts[i]].series, listed[ts[i]].event) == k;
    }
    if i :| 0 <= i < |ts| && EventKey(listed[ts[i]].series, listed[ts[i]].event) == k {
      MarketsAre(listed, ts, k, ts[i]);
    }
  }

  lemma LoudMeans(listed: Listing, ts: seq<Ticker>, k: EventKey, floor: int)
    requires Known(listed, ts)
    ensures Loud(listed, ts, k, floor) <==> TotalVolume(listed, ts, k) >= floor
  {
    MarketsAreKnown(listed, ts);
    VolumeMeans(listed, ts, k);
  }

  /** Only events that qualify are chosen. */
  lemma ChosenQualify(listed: Listing, ts: seq<Ticker>, g: Group, floor: int, now: int, k: EventKey)
    requires Known(listed, ts) && ValidGroup(g) && k in ChosenEvents(listed, ts, g, floor, now)
    ensures Qualifies(listed, ts, g, floor, now, k)
  {
    ChosenEventsAre(listed, ts, g, floor, now, k);
    EventIsThere(listed, ts, k);
    SoonEnoughMeans(listed, ts, g, now, k);
    LoudMeans(listed, ts, k, floor);
    if g.selector.BySeries? {
      NearestOfEachAre(listed, ts, WithinHorizon(listed, ts, EventsOf(listed, ts), g, now), g.selector.series, g.events,
        k);
    }
  }

  /** The order in which a group goes through its events. */
  ghost predicate EventGoesBefore(listed: Listing, ts: seq<Ticker>, g: Group, j: EventKey, k: EventKey)
    requires Known(listed, ts)
  {
    match g.selector
    case ByCategory(_) => BusierEvent(listed, ts, j, k)
    case BySeries(series) =>
      if j.series == k.series then NearerEvent(listed, ts, j, k)
      else exists a, b :: 0 <= a < b < |series| && series[a] == j.series && series[b] == k.series
  }

  /** In a category group each chosen event goes before every other one that qualifies, and there are as many as
      the group may choose. */
  lemma BusiestAreChosen(listed: Listing, ts: seq<Ticker>, g: Group, floor: int, now: int, j: EventKey, k: EventKey)
    requires Known(listed, ts) && ValidGroup(g) && g.selector.ByCategory?
    requires j in ChosenEvents(listed, ts, g, floor, now) && k !in ChosenEvents(listed, ts, g, floor, now)
    requires Qualifies(listed, ts, g, floor, now, k)
    ensures BusierEvent(listed, ts, j, k) && |ChosenEvents(listed, ts, g, floor, now)| == g.events
  {
    EventIsThere(listed, ts, k);
    SoonEnoughMeans(listed, ts, g, now, k);
    LoudMeans(listed, ts, k, floor);
    BusiestEventsChosen(listed, ts, g, floor, now, j, k);
    BusierEventMeans(listed, ts, k, j);
    BusierTotal(listed, ts, j, k);
  }

  /** In a series group each chosen event of a series goes before every other one of that series that qualifies. */
  lemma NearestAreChosen(listed: Listing, ts: seq<Ticker>, g: Group, floor: int, now: int, j: EventKey, k: EventKey)
    requires Known(listed, ts) && ValidGroup(g) && g.selector.BySeries? && j.series == k.series
    requires j in ChosenEvents(listed, ts, g, floor, now) && k !in ChosenEvents(listed, ts, g, floor, now)
    requires Qualifies(listed, ts, g, floor, now, k)
    ensures NearerEvent(listed, ts, j, k)
  {
    EventIsThere(listed, ts, k);
    SoonEnoughMeans(listed, ts, g, now, k);
    NearestEventsChosen(listed, ts, g, floor, now, j, k);
    NearerMeans(listed, ts, k, j);
    NearerTotal(listed, ts, j, k);
  }

  /** What is not among the first `n` is left out only because there are `n`. */
  lemma FullTop<T(!new)>(xs: seq<T>, key: T -> seq<int>, n: nat, y: T)
    requires y in xs && y !in Top(SortBy(xs, key), n)
    ensures |Top(SortBy(xs, key), n)| == n
  {
    SortHolds(xs, key, y);
    TopOfFew(SortBy(xs, key), n);
  }

  lemma TopOfFew<T>(r: seq<T>, n: nat)
    ensures |r| <= n ==> Top(r, n) == r
  {
  }

  /** If an event that qualifies is left out, there are as many as the group may choose: in all, or of its series. */
  lemma LeftOutWhenFull(listed: Listing, ts: seq<Ticker>, g: Group, floor: int, now: int, k: EventKey)
    requires Known(listed, ts) && ValidGroup(g)
    requires Qualifies(listed, ts, g, floor, now, k) && k !in ChosenEvents(listed, ts, g, floor, now)
    ensures g.selector.ByCategory? ==> |ChosenEvents(listed, ts, g, floor, now)| == g.events
    ensures g.selector.BySeries? ==> |OfSeries(ChosenEvents(listed, ts, g, floor, now), k.series)| == g.events
  {
    var keys := EventsOf(listed, ts);
    var within := WithinHorizon(listed, ts, keys, g, now);
    EventIsThere(listed, ts, k);
    SoonEnoughMeans(listed, ts, g, now, k);
    WithinAre(listed, ts, keys, g, now, k);
    match g.selector
    case ByCategory(_) =>
      LoudMeans(listed, ts, k, floor);
      LoudAre(listed, ts, within, floor, k);
      FullTop(LoudOnes(listed, ts, within, floor), BusiestKey(listed, ts), g.events, k);
    case BySeries(series) =>
      OfSeriesAre(within, k.series, k);
      if k in NearestOf(listed, ts, within, k.series, g.events) {
        NearestIsOfEach(listed, ts, within, series, g.events, k.series, k);
      } else {
        FullTop(OfSeries(within, k.series), NearestKey(listed, ts), g.events, k);
        EachSeriesOnce(listed, ts, within, series, g.events, k.series);
      }
  }

  lemma {:induction false} OfSeriesAppend(a: seq<EventKey>, b: seq<EventKey>, s: Key)
    ensures OfSeries(a + b, s) == OfSeries(a, s) + OfSeries(b, s)
  {
    if b == [] {
      assert a + b == a;
    } else {
      OfSeriesAppend(a, b[..|b| - 1], s);
      assert (a + b)[..|a + b| - 1] == a + b[..|b| - 1];
    }
  }

  lemma {:induction false} OfSeriesAll(a: seq<EventKey>, s: Key, t: Key)
    requires forall i :: 0 <= i < |a| ==> a[i].series == s
    ensures OfSeries(a, t) == if s == t then a else []
  {
    if a != [] {
      OfSeriesAll(a[..|a| - 1], s, t);
      assert a == a[..|a| - 1] + [a[|a| - 1]];
    }
  }

  lemma {:induction false} EachSeriesOnce(
      listed: Listing, ts: seq<Ticker>, keys: seq<EventKey>, series: seq<Key>, events: nat, s: Key)
    requires Known(listed, ts) && Distinct(series)
    ensures OfSeries(NearestOfEach(listed, ts, keys, series, events), s)
            == if s in series then NearestOf(listed, ts, keys, s, events) else []
  {
    if series != [] {
      var init, last := series[..|series| - 1], series[|series| - 1];
      assert series == init + [last] && last !in init;
      EachSeriesOnce(listed, ts, keys, init, events, s);
      var more := NearestOf(listed, ts, keys, last, events);
      OfSeriesAppend(NearestOfEach(listed, ts, keys, init, events), more, s);
      forall i | 0 <= i < |more| ensures more[i].series == last {
        NearestAre(listed, ts, keys, last, events, more[i]);
      }
      OfSeriesAll(more, last, s);
    }
  }

  /** If a market of a chosen event is left, the group took as many of the event as it may. */
  lemma LeftWhenFull(listed: Listing, ts: seq<Ticker>, g: Group, k: EventKey, u: Ticker)
    requires Known(listed, ts) && u in ts && k == EventKey(listed[u].series, listed[u].event)
    requires u !in TakenOf(listed, ts, g, k)
    ensures |TakenOf(listed, ts, g, k)| == g.perEvent
  {
    MarketsAre(listed, ts, k, u);
    FullTop(MarketsOf(listed, ts, k), RankIn(listed, ts, g, k), g.perEvent, u);
  }

  // ------------------------------------------------------------------ a group's choice as a whole

  ghost predicate EventsInOrder(listed: Listing, ts: seq<Ticker>, g: Group, keys: seq<EventKey>)
    requires Known(listed, ts)
  {
    forall i, j :: 0 <= i < j < |keys| ==> EventGoesBefore(listed, ts, g, keys[i], keys[j])
  }

  lemma NearestInOrder(listed: Listing, ts: seq<Ticker>, keys: seq<EventKey>, s: Key, events: nat, i: nat, j: nat)
    requires Known(listed, ts) && Distinct(keys) && i < j < |NearestOf(listed, ts, keys, s, events)|
    ensures var r := NearestOf(listed, ts, keys, s, events);
            r[i].series == s && r[j].series == s && NearerEvent(listed, ts, r[i], r[j])
  {
    var own, key, r := OfSeries(keys, s), NearestKey(listed, ts), NearestOf(listed, ts, keys, s, events);
    SortIsOrdered(own, key);
    assert r[i] == SortBy(own, key)[i] && r[j] == SortBy(own, key)[j];
    NearestAre(listed, ts, keys, s, events, r[i]);
    NearestAre(listed, ts, keys, s, events, r[j]);
    NearerMeans(listed, ts, r[j], r[i]);
    NearerTotal(listed, ts, r[i], r[j]);
  }

  lemma JoinEvents(listed: Listing, ts: seq<Ticker>, g: Group, a: seq<EventKey>, b: seq<EventKey>)
    requires Known(listed, ts) && EventsInOrder(listed, ts, g, a) && EventsInOrder(listed, ts, g, b)
    requires forall i, j :: 0 <= i < |a| && 0 <= j < |b| ==> EventGoesBefore(listed, ts, g, a[i], b[j])
    ensures EventsInOrder(listed, ts, g, a + b)
  {
    var all := a + b;
    forall i, j | 0 <= i < j < |all| ensures EventGoesBefore(listed, ts, g, all[i], all[j]) {
      assert all[i] == if i < |a| then a[i] else b[i - |a|];
      assert all[j] == if j < |a| then a[j] else b[j - |a|];
    }
  }

  lemma SeriesBefore(listed: Listing, ts: seq<Ticker>, g: Group, j: EventKey, k: EventKey, a: nat, b: nat)
    requires Known(listed, ts) && g.selector.BySeries? && Distinct(g.selector.series) && a < b < |g.selector.series|
    requires j.series == g.selector.series[a] && k.series == g.selector.series[b]
    ensures EventGoesBefore(listed, ts, g, j, k)
  {
  }

  lemma OneSeriesInOrder(listed: Listing, ts: seq<Ticker>, g: Group, keys: seq<EventKey>, s: Key, events: nat)
    requires Known(listed, ts) && Distinct(keys) && g.selector.BySeries?
    ensures EventsInOrder(listed, ts, g, NearestOf(listed, ts, keys, s, events))
  {
    var r := NearestOf(listed, ts, keys, s, events);
    forall i, j | 0 <= i < j < |r| ensures EventGoesBefore(listed, ts, g, r[i], r[j]) {
      NearestInOrder(listed, ts, keys, s, events, i, j);
    }
  }

  lemma {:induction false} SeriesInOrder(
      listed: Listing, ts: seq<Ticker>, g: Group, keys: seq<EventKey>, series: seq<Key>, events: nat)
    requires Known(listed, ts) && Distinct(keys) && g.selector.BySeries? && series <= g.selector.series
    requires Distinct(g.selector.series)
    ensures EventsInOrder(listed, ts, g, NearestOfEach(listed, ts, keys, series, events))
  {
    if series != [] {
      var init, last := series[..|series| - 1], series[|series| - 1];
      SeriesInOrder(listed, ts, g, keys, init, events);
      OneSeriesInOrder(listed, ts, g, keys, last, events);
      var before, more := NearestOfEach(listed, ts, keys, init, events), NearestOf(listed, ts, keys, last, events);
      forall i, j | 0 <= i < |before| && 0 <= j < |more| ensures EventGoesBefore(listed, ts, g, before[i], more[j]) {
        var a := SeriesPlace(listed, ts, keys, init, events, before[i]);
        NearestAre(listed, ts, keys, last, events, more[j]);
        SeriesBefore(listed, ts, g, before[i], more[j], a, |init|);
      }
      JoinEvents(listed, ts, g, before, more);
    }
  }

  lemma SeriesPlace(
      listed: Listing, ts: seq<Ticker>, keys: seq<EventKey>, series: seq<Key>, events: nat, k: EventKey)
      returns (a: nat)
    requires Known(listed, ts) && k in NearestOfEach(listed, ts, keys, series, events)
    ensures a < |series| && series[a] == k.series
  {
    NearestOfEachAre(listed, ts, keys, series, events, k);
    a :| 0 <= a < |series| && series[a] == k.series;
  }

  /** A group's chosen events are in the group's order. */
  lemma ChosenInOrder(listed: Listing, ts: seq<Ticker>, g: Group, floor: int, now: int)
    requires Known(listed, ts) && ValidGroup(g)
    ensures EventsInOrder(listed, ts, g, ChosenEvents(listed, ts, g, floor, now))
  {
    var keys := EventsOf(listed, ts);
    var within := WithinHorizon(listed, ts, keys, g, now);
    EventsAre(listed, ts, EventKey(Key(0), Key(0)));
    WithinAre(listed, ts, keys, g, now, EventKey(Key(0), Key(0)));
    match g.selector
    case BySeries(series) => SeriesInOrder(listed, ts, g, within, series, g.events);
    case ByCategory(_) =>
      ChosenEventsAre(listed, ts, g, floor, now, EventKey(Key(0), Key(0)));
      var own, key := LoudOnes(listed, ts, within, floor), BusiestKey(listed, ts);
      var r := ChosenEvents(listed, ts, g, floor, now);
      SortIsOrdered(own, key);
      forall i, j | 0 <= i < j < |r| ensures EventGoesBefore(listed, ts, g, r[i], r[j]) {
        assert r[i] == SortBy(own, key)[i] && r[j] == SortBy(own, key)[j];
        BusierEventMeans(listed, ts, r[j], r[i]);
        BusierTotal(listed, ts, r[i], r[j]);
      }
  }

  /** One market is admitted before another: its event goes before the other's, or it does within their event. */
  ghost predicate ComesBefore(listed: Listing, ts: seq<Ticker>, g: Group, t: Ticker, u: Ticker)
    requires Known(listed, ts) && t in listed && u in listed
  {
    var j, k := EventKey(listed[t].series, listed[t].event), EventKey(listed[u].series, listed[u].event);
    if j == k then GoesBefore(listed, ts, g, t, u) else EventGoesBefore(listed, ts, g, j, k)
  }

  ghost predicate MarketsInOrder(listed: Listing, ts: seq<Ticker>, g: Group, r: seq<Ticker>)
    requires Known(listed, ts) && Known(listed, r)
  {
    forall i, j :: 0 <= i < j < |r| ==> ComesBefore(listed, ts, g, r[i], r[j])
  }

  lemma TakenAreKnown(listed: Listing, ts: seq<Ticker>, g: Group, keys: seq<EventKey>)
    requires Known(listed, ts) && Distinct(ts)
    ensures Known(listed, TakenOfEach(listed, ts, g, keys))
  {
    var r := TakenOfEach(listed, ts, g, keys);
    forall i | 0 <= i < |r| ensures r[i] in listed {
      TakenOfEachAre(listed, ts, g, keys, r[i]);
    }
  }

  lemma JoinInOrder(listed: Listing, ts: seq<Ticker>, g: Group, a: seq<Ticker>, b: seq<Ticker>)
    requires Known(listed, ts) && Known(listed, a) && Known(listed, b)
    requires MarketsInOrder(listed, ts, g, a) && MarketsInOrder(listed, ts, g, b)
    requires forall i, j :: 0 <= i < |a| && 0 <= j < |b| ==> ComesBefore(listed, ts, g, a[i], b[j])
    ensures Known(listed, a + b) && MarketsInOrder(listed, ts, g, a + b)
  {
    var all := a + b;
    forall i, j | 0 <= i < j < |all| ensures ComesBefore(listed, ts, g, all[i], all[j]) {
      assert all[i] == if i < |a| then a[i] else b[i - |a|];
      assert all[j] == if j < |a| then a[j] else b[j - |a|];
    }
  }

  lemma PrefixInOrder(listed: Listing, ts: seq<Ticker>, g: Group, r: seq<Ticker>, n: nat)
    requires Known(listed, ts) && Known(listed, r) && MarketsInOrder(listed, ts, g, r) && n <= |r|
    ensures Known(listed, r[..n]) && MarketsInOrder(listed, ts, g, r[..n])
    ensures forall i :: 0 <= i < n ==> r[..n][i] == r[i]
  {
  }

  lemma EventInOrder(listed: Listing, ts: seq<Ticker>, g: Group, k: EventKey)
    requires Known(listed, ts) && Distinct(ts) && OwnTickers(listed)
    ensures Known(listed, TakenOf(listed, ts, g, k)) && MarketsInOrder(listed, ts, g, TakenOf(listed, ts, g, k))
  {
    var r := TakenOf(listed, ts, g, k);
    forall i | 0 <= i < |r| ensures r[i] in listed {
      TakenAre(listed, ts, g, k, r[i]);
    }
    forall i, j | 0 <= i < j < |r| ensures ComesBefore(listed, ts, g, r[i], r[j]) {
      TakenAre(listed, ts, g, k, r[i]);
      TakenAre(listed, ts, g, k, r[j]);
      TakenInOrder(listed, ts, g, k, i, j);
    }
  }

  lemma PairInOrder(listed: Listing, ts: seq<Ticker>, g: Group, keys: seq<EventKey>, a: nat, b: nat)
    requires Known(listed, ts) && Distinct(keys) && EventsInOrder(listed, ts, g, keys) && a < b < |keys|
    ensures keys[a] != keys[b] && EventGoesBefore(listed, ts, g, keys[a], keys[b])
  {
  }

  lemma ApartMeans(listed: Listing, ts: seq<Ticker>, g: Group, j: EventKey, k: EventKey, t: Ticker, u: Ticker)
    requires Known(listed, ts) && t in listed && u in listed && j != k && EventGoesBefore(listed, ts, g, j, k)
    requires j == EventKey(listed[t].series, listed[t].event) && k == EventKey(listed[u].series, listed[u].event)
    ensures ComesBefore(listed, ts, g, t, u)
  {
  }

  lemma EventsApart(
      listed: Listing, ts: seq<Ticker>, g: Group, keys: seq<EventKey>, t: Ticker, u: Ticker)
    requires Known(listed, ts) && Distinct(ts) && Distinct(keys) && EventsInOrder(listed, ts, g, keys) && keys != []
    requires t in TakenOfEach(listed, ts, g, keys[..|keys| - 1]) && u in TakenOf(listed, ts, g, keys[|keys| - 1])
    ensures t in listed && u in listed && ComesBefore(listed, ts, g, t, u)
  {
    var a := EventPlace(listed, ts, g, keys, t);
    TakenAre(listed, ts, g, keys[|keys| - 1], u);
    PairInOrder(listed, ts, g, keys, a, |keys| - 1);
    ApartMeans(listed, ts, g, keys[a], keys[|keys| - 1], t, u);
  }

  lemma EventPlace(
      listed: Listing, ts: seq<Ticker>, g: Group, keys: seq<EventKey>, t: Ticker) returns (a: nat)
    requires Known(listed, ts) && Distinct(ts) && keys != []
    requires t in TakenOfEach(listed, ts, g, keys[..|keys| - 1])
    ensures t in listed && a < |keys| - 1 && keys[a] == EventKey(listed[t].series, listed[t].event)
  {
    var init := keys[..|keys| - 1];
    TakenOfEachAre(listed, ts, g, init, t);
    a :| 0 <= a < |init| && init[a] == EventOf(listed[t]);
  }

  lemma {:induction false} TakenOfEachInOrder(listed: Listing, ts: seq<Ticker>, g: Group, keys: seq<EventKey>)
    requires Known(listed, ts) && Distinct(ts) && OwnTickers(listed)
    requires Distinct(keys) && EventsInOrder(listed, ts, g, keys)
    ensures Known(listed, TakenOfEach(listed, ts, g, keys))
    ensures MarketsInOrder(listed, ts, g, TakenOfEach(listed, ts, g, keys))
  {
    if keys != [] {
      var init, last := keys[..|keys| - 1], keys[|keys| - 1];
      TakenOfEachInOrder(listed, ts, g, init);
      var before, more := TakenOfEach(listed, ts, g, init), TakenOf(listed, ts, g, last);
      EventInOrder(listed, ts, g, last);
      forall i, j | 0 <= i < |before| && 0 <= j < |more| ensures ComesBefore(listed, ts, g, before[i], more[j]) {
        EventsApart(listed, ts, g, keys, before[i], more[j]);
      }
      JoinInOrder(listed, ts, g, before, more);
    }
  }

  /** Everything a group chooses is in the order it is to be admitted. */
  lemma ChoiceInOrder(listed: Listing, ts: seq<Ticker>, g: Group, floor: int, now: int)
    requires Known(listed, ts) && Distinct(ts) && OwnTickers(listed) && ValidGroup(g)
    ensures Known(listed, Choose(listed, ts, g, floor, now))
    ensures MarketsInOrder(listed, ts, g, Choose(listed, ts, g, floor, now))
  {
    var keys := ChosenEvents(listed, ts, g, floor, now);
    ChosenEventsAre(listed, ts, g, floor, now, EventKey(Key(0), Key(0)));
    ChosenInOrder(listed, ts, g, floor, now);
    TakenOfEachInOrder(listed, ts, g, keys);
    var all := TakenOfEach(listed, ts, g, keys);
    PrefixInOrder(listed, ts, g, all, if g.maxMarkets.None? then |all| else Min(|all|, g.maxMarkets.value));
    assert all[..|all|] == all;
  }

  /** The group had no room for the market, and all it took instead comes before it. */
  ghost predicate CrowdedOut(listed: Listing, ts: seq<Ticker>, g: Group, floor: int, now: int, u: Ticker)
    requires Known(listed, ts) && u in listed
  {
    var k, c := EventKey(listed[u].series, listed[u].event), Choose(listed, ts, g, floor, now);
    g.maxMarkets == Some(|c|) && k in ChosenEvents(listed, ts, g, floor, now)
    && forall i :: 0 <= i < |c| ==> c[i] in listed && ComesBefore(listed, ts, g, c[i], u)
  }

  /** Why a candidate was not chosen is what its reason says. */
  lemma ReasonHolds(listed: Listing, ts: seq<Ticker>, g: Group, floor: int, now: int, u: Ticker)
    requires Known(listed, ts) && Distinct(ts) && OwnTickers(listed) && ValidGroup(g)
    requires u in ts && u !in Choose(listed, ts, g, floor, now)
    requires g.selector.BySeries? ==> listed[u].series in g.selector.series
    ensures var k := EventKey(listed[u].series, listed[u].event);
            match PassedFor(listed, ts, g, floor, now, u)
            case EventBeyondHorizon => !SoonEnough(listed, ts, g, now, k)
            case BelowVolume => g.selector.ByCategory? && SoonEnough(listed, ts, g, now, k)
                                && TotalVolume(listed, ts, k) < floor
            case EventNotChosen => Qualifies(listed, ts, g, floor, now, k)
                                   && k !in ChosenEvents(listed, ts, g, floor, now)
            case OverEventCap => k in ChosenEvents(listed, ts, g, floor, now) && u !in TakenOf(listed, ts, g, k)
            case OverGroupCap => CrowdedOut(listed, ts, g, floor, now, u)
            case _ => false
  {
    var k := EventKey(listed[u].series, listed[u].event);
    SoonEnoughMeans(listed, ts, g, now, k);
    LoudMeans(listed, ts, k, floor);
    EventIsThere(listed, ts, k);
    if InHorizon(listed, ts, k, g, now) && (g.selector.BySeries? || Loud(listed, ts, k, floor))
       && k in ChosenEvents(listed, ts, g, floor, now) && u in TakenOf(listed, ts, g, k) {
      IsCrowdedOut(listed, ts, g, floor, now, u);
    }
  }

  lemma LaterInOrder(listed: Listing, ts: seq<Ticker>, g: Group, all: seq<Ticker>, n: nat, u: Ticker)
    requires Known(listed, ts) && Known(listed, all) && MarketsInOrder(listed, ts, g, all) && n <= |all|
    requires u in all && u !in all[..n]
    ensures u in listed
            && forall i :: 0 <= i < n ==> all[..n][i] in listed && ComesBefore(listed, ts, g, all[..n][i], u)
  {
    var j :| 0 <= j < |all| && all[j] == u;
    assert forall i :: 0 <= i < n ==> all[..n][i] == all[i] && all[..n][i] in all[..n];
    forall i | 0 <= i < n ensures all[..n][i] in listed && ComesBefore(listed, ts, g, all[..n][i], u) {
      assert all[..n][i] == all[i];
    }
  }

  lemma IsCrowdedOut(listed: Listing, ts: seq<Ticker>, g: Group, floor: int, now: int, u: Ticker)
    requires Known(listed, ts) && Distinct(ts) && OwnTickers(listed) && ValidGroup(g)
    requires u in ts && u !in Choose(listed, ts, g, floor, now)
    requires var k := EventKey(listed[u].series, listed[u].event);
             k in ChosenEvents(listed, ts, g, floor, now) && u in TakenOf(listed, ts, g, k)
    ensures CrowdedOut(listed, ts, g, floor, now, u)
  {
    var keys := ChosenEvents(listed, ts, g, floor, now);
    var all := TakenOfEach(listed, ts, g, keys);
    TakenOfEachAre(listed, ts, g, keys, u);
    assert g.maxMarkets.Some? && Choose(listed, ts, g, floor, now) == Top(all, g.maxMarkets.value);
    TopOfFew(all, g.maxMarkets.value);
    ChosenEventsAre(listed, ts, g, floor, now, EventKey(Key(0), Key(0)));
    ChosenInOrder(listed, ts, g, floor, now);
    TakenOfEachInOrder(listed, ts, g, keys);
    LaterInOrder(listed, ts, g, all, Min(|all|, g.maxMarkets.value), u);
  }
}
