/** Which markets earn order-book capture, and why every other one did not: `src/tape/recorder/universe.py`. */
module Universe {
  import opened Prelude
  import opened Counts

  /** Status, strike type, series and event are texts, which only compare. */
  datatype Market = Market(
    ticker: Ticker, series: Key, event: Key, shard: int, status: Key, volume: int, close: Option<int>, mve: bool,
    strike: Option<Key>, bid: Option<nat>, ask: Option<nat>, last: Option<nat>)

  const ACTIVE := Key(1)
  const EMPTY_TEXT := Key(0)
  const THRESHOLDS := {Key(2), Key(3), Key(4), Key(5)}
  const PRICE_MAX: nat := 10_000
  const HALF_PRICE: nat := 5_000
  const SECONDS_PER_HOUR: nat := 3_600

  // ------------------------------------------------------------------ sort keys

  /** Tuples of one shape compare place by place. */
  predicate Before(a: seq<int>, b: seq<int>) {
    if a == [] || b == [] then a == [] && b != []
    else if a[0] != b[0] then a[0] < b[0]
    else Before(a[1..], b[1..])
  }

  lemma {:induction false} BeforeIsTotal(a: seq<int>, b: seq<int>)
    ensures a == b <==> !Before(a, b) && !Before(b, a)
    ensures !(Before(a, b) && Before(b, a))
  {
    if a != [] && b != [] && a[0] == b[0] {
      BeforeIsTotal(a[1..], b[1..]);
      assert a == [a[0]] + a[1..] && b == [b[0]] + b[1..];
    }
  }

  lemma {:induction false} BeforeChains(a: seq<int>, b: seq<int>, c: seq<int>)
    requires !Before(b, a) && !Before(c, b)
    ensures !Before(c, a)
  {
    if a != [] && b != [] && c != [] && a[0] == b[0] == c[0] { BeforeChains(a[1..], b[1..], c[1..]); }
  }

  // ------------------------------------------------------------------ one copy of each ticker

  function OrMinus(n: Option<int>): int {
    if n.None? then -1 else n.value
  }

  function PriceOrMinus(n: Option<nat>): int {
    if n.None? then -1 else n.value
  }

  /** `_freshness`: volume, then every other field. */
  function Freshness(m: Market): seq<int> {
    [m.volume, OrMinus(m.close), m.status.rank, m.event.rank, m.series.rank, m.shard, if m.mve then 1 else 0,
     if m.strike.None? then EMPTY_TEXT.rank else
         m.strike.value.rank, PriceOrMinus(m.bid), PriceOrMinus(m.ask), PriceOrMinus(m.last)]
  }

  /** Two copies of a ticker the order cannot tell apart: they differ in a close time of -1 for none, or in an empty
      strike type for none. */
  predicate Tied(a: Market, b: Market) {
    a != b && a.ticker == b.ticker && Freshness(a) == Freshness(b)
  }

  /** Neither a close time of -1 nor an empty strike type. */
  predicate Plain(m: Market) {
    m.close != Some(-1) && m.strike != Some(EMPTY_TEXT)
  }

  lemma TiedMeans(a: Market, b: Market)
    ensures Tied(a, b) <==>
              && a != b && (a.close != b.close ==> {a.close, b.close} == {None, Some(-1)})
              && (a.strike != b.strike ==> {a.strike, b.strike} == {None, Some(EMPTY_TEXT)})
              && a.(close := None, strike := None) == b.(close := None, strike := None)
  {
    var x, y := Freshness(a), Freshness(b);
    if x == y {
      assert x[0] == y[0] && x[1] == y[1] && x[2] == y[2] && x[3] == y[3] && x[4] == y[4] && x[5] == y[5];
      assert x[6] == y[6] && x[7] == y[7] && x[8] == y[8] && x[9] == y[9] && x[10] == y[10];
    }
  }

  lemma PlainNeverTied(a: Market, b: Market)
    requires Plain(a) && Plain(b)
    ensures !Tied(a, b)
  {
    TiedMeans(a, b);
  }

  predicate Fresher(a: Market, b: Market) {
    Before(Freshness(b), Freshness(a))
  }

  function Kept1(newest: map<Ticker, Market>, m: Market): map<Ticker, Market> {
    if m.ticker in newest && !Fresher(m, newest[m.ticker]) then newest else newest[m.ticker := m]
  }

  function Newest(ms: seq<Market>): map<Ticker, Market> {
    if ms == [] then map[] else Kept1(Newest(ms[..|ms| - 1]), ms[|ms| - 1])
  }

  ghost predicate Freshest(ms: seq<Market>, m: Market) {
    m in ms && forall i :: 0 <= i < |ms| && ms[i].ticker == m.ticker ==> !Fresher(ms[i], m)
  }

  ghost predicate Lists(ms: seq<Market>, t: Ticker) {
    exists i :: 0 <= i < |ms| && ms[i].ticker == t
  }

  lemma ListsNext(init: seq<Market>, m: Market, t: Ticker)
    ensures Lists(init + [m], t) <==> Lists(init, t) || m.ticker == t
  {
    if Lists(init, t) {
      var i :| 0 <= i < |init| && init[i].ticker == t;
      assert (init + [m])[i] == init[i];
    }
    if m.ticker == t { assert (init + [m])[|init|] == m; }
  }

  lemma FreshestNext(init: seq<Market>, m: Market, held: Market)
    requires Freshest(init, held)
    ensures held.ticker != m.ticker || !Fresher(m, held) ==> Freshest(init + [m], held)
    ensures held.ticker == m.ticker && Fresher(m, held) ==> Freshest(init + [m], m)
  {
    var all := init + [m];
    assert all[|all| - 1] == m && forall i :: 0 <= i < |init| ==> all[i] == init[i];
    BeforeIsTotal(Freshness(m), Freshness(m));
    if held.ticker == m.ticker && Fresher(m, held) {
      forall i | 0 <= i < |all| && all[i].ticker == m.ticker ensures !Fresher(all[i], m) {
        if i < |init| { ChainsUp(init[i], held, m); }
      }
    }
  }

  lemma ChainsUp(a: Market, held: Market, m: Market)
    requires !Fresher(a, held) && Fresher(m, held)
    ensures !Fresher(a, m)
  {
    BeforeIsTotal(Freshness(held), Freshness(m));
    BeforeChains(Freshness(a), Freshness(held), Freshness(m));
  }

  /** The copy kept of each ticker is one that no other copy is fresher than. */
  lemma {:induction false} NewestIsFreshest(ms: seq<Market>, t: Ticker)
    ensures t in Newest(ms) <==> Lists(ms, t)
    ensures t in Newest(ms) ==> Newest(ms)[t].ticker == t && Freshest(ms, Newest(ms)[t])
  {
    if ms != [] {
      var init, m := ms[..|ms| - 1], ms[|ms| - 1];
      assert ms == init + [m];
      NewestIsFreshest(init, t);
      ListsNext(init, m, t);
      if t in Newest(init) {
        FreshestNext(init, m, Newest(init)[t]);
      } else if m.ticker == t {
        FirstCopyIsFreshest(init, m);
      }
    }
  }

  lemma FirstCopyIsFreshest(init: seq<Market>, m: Market)
    requires !Lists(init, m.ticker)
    ensures Freshest(init + [m], m)
  {
    BeforeIsTotal(Freshness(m), Freshness(m));
    var all := init + [m];
    assert all[|init|] == m && forall i :: 0 <= i < |init| ==> all[i] == init[i] && init[i].ticker != m.ticker;
  }

  /** Some freshest copies of a ticker differ where the order cannot see. */
  ghost predicate OrderShows(ms: seq<Market>) {
    exists a, b :: Freshest(ms, a) && Freshest(ms, b) && Tied(a, b)
  }

  lemma TwoFreshest(ms: seq<Market>, a: Market, b: Market)
    requires Freshest(ms, a) && Freshest(ms, b) && a.ticker == b.ticker && a != b
    ensures Tied(a, b)
  {
    var i :| 0 <= i < |ms| && ms[i] == a;
    var j :| 0 <= j < |ms| && ms[j] == b;
    assert !Fresher(ms[i], b) && !Fresher(ms[j], a);
    BeforeIsTotal(Freshness(a), Freshness(b));
  }

  lemma SameMembersSameFreshest(a: seq<Market>, b: seq<Market>, m: Market)
    requires forall x :: x in a <==> x in b
    ensures Freshest(a, m) <==> Freshest(b, m)
  {
    FreshestOver(a, b, m);
    FreshestOver(b, a, m);
  }

  lemma FreshestOver(a: seq<Market>, b: seq<Market>, m: Market)
    requires forall x :: x in a <==> x in b
    ensures Freshest(a, m) ==> Freshest(b, m)
  {
    if Freshest(a, m) {
      forall i | 0 <= i < |b| && b[i].ticker == m.ticker ensures !Fresher(b[i], m) {
        assert b[i] in b;
        var j :| 0 <= j < |a| && a[j] == b[i];
        assert !Fresher(a[j], m);
      }
    }
  }

  lemma SameMembersSameLists(a: seq<Market>, b: seq<Market>, t: Ticker)
    requires forall x :: x in a <==> x in b
    ensures Lists(a, t) ==> Lists(b, t)
  {
    if Lists(a, t) {
      var i :| 0 <= i < |a| && a[i].ticker == t;
      assert a[i] in a;
      var j :| 0 <= j < |b| && b[j] == a[i];
    }
  }

  /** However the listing is ordered the same copies are kept, if no freshest copies are tied. */
  lemma NewestIgnoresOrder(a: seq<Market>, b: seq<Market>)
    requires (forall x :: x in a <==> x in b) && !OrderShows(a)
    ensures Newest(a) == Newest(b)
  {
    forall t ensures t in Newest(a) <==> t in Newest(b)
             ensures t in Newest(a) && t in Newest(b) ==> Newest(a)[t] == Newest(b)[t]
    {
      NewestIsFreshest(a, t);
      NewestIsFreshest(b, t);
      SameMembersSameLists(a, b, t);
      SameMembersSameLists(b, a, t);
      if t in Newest(a) && t in Newest(b) && Newest(a)[t] != Newest(b)[t] {
        SameMembersSameFreshest(a, b, Newest(b)[t]);
        TwoFreshest(a, Newest(a)[t], Newest(b)[t]);
        assert OrderShows(a);
      }
    }
  }

  lemma {:induction false} FirstOfFreshestStays(ms: seq<Market>, n: nat)
    requires 0 < n <= |ms| && Freshest(ms, ms[0])
    ensures ms[0].ticker in Newest(ms[..n]) && Newest(ms[..n])[ms[0].ticker] == ms[0]
  {
    assert ms[..n][..n - 1] == ms[..n - 1] && ms[..n][n - 1] == ms[n - 1];
    if n > 1 { FirstOfFreshestStays(ms, n - 1); } else { assert Newest(ms[..0]) == map[]; }
  }

  /** A listing in which one freshest copy comes first keeps that copy. */
  lemma PutFirst(ms: seq<Market>, m: Market) returns (again: seq<Market>)
    requires Freshest(ms, m)
    ensures multiset(again) == multiset(ms) && Newest(again).Keys == Newest(ms).Keys
    ensures m.ticker in Newest(again) && Newest(again)[m.ticker] == m
  {
    var i :| 0 <= i < |ms| && ms[i] == m;
    again := [m] + (ms[..i] + ms[i + 1..]);
    assert ms == ms[..i] + ([m] + ms[i + 1..]);
    assert multiset(again) == multiset(ms);
    assert forall x :: x in again <==> x in multiset(again);
    assert forall x :: x in ms <==> x in multiset(ms);
    SameMembersSameFreshest(ms, again, m);
    FirstOfFreshestStays(again, |again|);
    assert again[..|again|] == again;
    forall t ensures t in Newest(again) <==> t in Newest(ms) {
      NewestIsFreshest(ms, t);
      NewestIsFreshest(again, t);
      SameMembersSameLists(ms, again, t);
      SameMembersSameLists(again, ms, t);
    }
  }

  /** And if some are tied, another order of the same listing keeps another copy: ties are exactly what order shows. */
  lemma OrderShowsIff(ms: seq<Market>)
    ensures OrderShows(ms) <==> exists again :: multiset(again) == multiset(ms) && Newest(again) != Newest(ms)
  {
    if OrderShows(ms) {
      var a, b :| Freshest(ms, a) && Freshest(ms, b) && Tied(a, b);
      var x := PutFirst(ms, a);
      var y := PutFirst(ms, b);
      assert Newest(x) != Newest(y);
    }
    if again :| multiset(again) == multiset(ms) && Newest(again) != Newest(ms) {
      assert forall x :: x in ms <==> x in multiset(ms);
      assert forall x :: x in again <==> x in multiset(again);
      if !OrderShows(ms) { NewestIgnoresOrder(ms, again); }
    }
  }

  /** No order shows in a listing of plain markets. */
  lemma PlainListingHasNoOrder(ms: seq<Market>)
    requires forall i :: 0 <= i < |ms| ==> Plain(ms[i])
    ensures !OrderShows(ms)
  {
    if a, b :| Freshest(ms, a) && Freshest(ms, b) && Tied(a, b) { PlainNeverTied(a, b); }
  }

  // ------------------------------------------------------------------ eligible markets

  datatype Reason =
    | Duplicate | NotActive | Multivariate | Closed | BeyondHorizon | NoGroup
    | EventBeyondHorizon | BelowVolume | EventNotChosen | OverEventCap | OverGroupCap | OverCap

  datatype Selector = BySeries(series: seq<Key>) | ByCategory(category: Key)

  datatype Group = Group(
    name: Key, selector: Selector, events: nat, perEvent: nat, maxMarkets: Option<nat>, maxHours: Option<nat>,
    nearPrice: bool)

  datatype Policy = Policy(minVolume: int, budget: nat, groups: seq<Group>, excludeMve: bool, maxSeconds: Option<int>)

  /** `_rejection`. */
  function Rejection(m: Market, p: Policy, now: int): Option<Reason> {
    if m.status != ACTIVE then Some(NotActive)
    else if p.excludeMve && m.mve then Some(Multivariate)
    else if m.close.Some? && m.close.value <= now then Some(Closed)
    else if m.close.Some? && p.maxSeconds.Some? && m.close.value - now > p.maxSeconds.value then Some(BeyondHorizon)
    else None
  }

  /** The kept copies by ticker. */
  type Listing = map<Ticker, Market>

  function Eligible(listed: Listing, p: Policy, now: int): set<Ticker> {
    set t | t in listed && Rejection(listed[t], p, now).None?
  }

  type Categories = map<Key, Key>

  /** `_selects`. */
  predicate Selects(g: Group, m: Market, categories: Categories) {
    match g.selector
    case BySeries(series) => m.series in series
    case ByCategory(category) => m.series in categories && categories[m.series] == category
  }

  // ------------------------------------------------------------------ sorting by a key

  function Placed<T>(x: T, xs: seq<T>, key: T -> seq<int>): seq<T> {
    if xs == [] || !Before(key(x), key(xs[|xs| - 1])) then xs + [x] else Placed(x, xs[..|xs| - 1], key) + [xs[|xs| - 1]]
  }

  function SortBy<T>(xs: seq<T>, key: T -> seq<int>): seq<T> {
    if xs == [] then [] else Placed(xs[|xs| - 1], SortBy(xs[..|xs| - 1], key), key)
  }

  ghost predicate InKeyOrder<T>(xs: seq<T>, key: T -> seq<int>) {
    forall i, j :: 0 <= i < j < |xs| ==> !Before(key(xs[j]), key(xs[i]))
  }

  lemma {:induction false} PlacedHolds<T>(x: T, xs: seq<T>, key: T -> seq<int>, y: T)
    ensures y in Placed(x, xs, key) <==> y == x || y in xs
    ensures |Placed(x, xs, key)| == |xs| + 1
  {
    if xs != [] && Before(key(x), key(xs[|xs| - 1])) {
      PlacedHolds(x, xs[..|xs| - 1], key, y);
      assert xs == xs[..|xs| - 1] + [xs[|xs| - 1]];
    }
  }

  lemma {:induction false} SortHolds<T>(xs: seq<T>, key: T -> seq<int>, y: T)
    ensures y in SortBy(xs, key) <==> y in xs
    ensures |SortBy(xs, key)| == |xs|
  {
    if xs != [] {
      SortHolds(xs[..|xs| - 1], key, y);
      PlacedHolds(xs[|xs| - 1], SortBy(xs[..|xs| - 1], key), key, y);
      assert xs == xs[..|xs| - 1] + [xs[|xs| - 1]];
    }
  }

  lemma {:induction false} PlacedIsOrdered<T(!new)>(x: T, xs: seq<T>, key: T -> seq<int>)
    requires InKeyOrder(xs, key)
    ensures InKeyOrder(Placed(x, xs, key), key)
  {
    if xs == [] {
    } else if !Before(key(x), key(xs[|xs| - 1])) {
      forall i | 0 <= i < |xs| ensures !Before(key(x), key(xs[i])) {
        if i < |xs| - 1 { BeforeChains(key(xs[i]), key(xs[|xs| - 1]), key(x)); }
      }
    } else {
      var init, last := xs[..|xs| - 1], xs[|xs| - 1];
      PlacedIsOrdered(x, init, key);
      var front := Placed(x, init, key);
      forall i | 0 <= i < |front| ensures !Before(key(last), key(front[i])) {
        PlacedHolds(x, init, key, front[i]);
        BeforeIsTotal(key(x), key(last));
        if front[i] != x {
          var j :| 0 <= j < |init| && init[j] == front[i];
          assert xs[j] == front[i];
        }
      }
    }
  }

  lemma {:induction false} SortIsOrdered<T(!new)>(xs: seq<T>, key: T -> seq<int>)
    ensures InKeyOrder(SortBy(xs, key), key)
  {
    if xs != [] {
      SortIsOrdered(xs[..|xs| - 1], key);
      PlacedIsOrdered(xs[|xs| - 1], SortBy(xs[..|xs| - 1], key), key);
    }
  }

  lemma {:induction false} PlacedIsDistinct<T>(x: T, xs: seq<T>, key: T -> seq<int>)
    requires Distinct(xs) && x !in xs
    ensures Distinct(Placed(x, xs, key))
  {
    if xs != [] && Before(key(x), key(xs[|xs| - 1])) {
      var init, last := xs[..|xs| - 1], xs[|xs| - 1];
      PlacedIsDistinct(x, init, key);
      var front := Placed(x, init, key);
      forall i | 0 <= i < |front| ensures front[i] != last {
        PlacedHolds(x, init, key, front[i]);
        assert xs[|xs| - 1] == last;
      }
    }
  }

  lemma {:induction false} SortIsDistinct<T>(xs: seq<T>, key: T -> seq<int>)
    requires Distinct(xs)
    ensures Distinct(SortBy(xs, key))
  {
    if xs != [] {
      SortIsDistinct(xs[..|xs| - 1], key);
      SortHolds(xs[..|xs| - 1], key, xs[|xs| - 1]);
      PlacedIsDistinct(xs[|xs| - 1], SortBy(xs[..|xs| - 1], key), key);
    }
  }

  function Top<T>(xs: seq<T>, n: nat): seq<T> {
    xs[..Min(|xs|, n)]
  }

  /** The first `n` by key: there are `n` of them or all, and none left out comes before one of them. */
  lemma TopIsFirst<T(!new)>(xs: seq<T>, key: T -> seq<int>, n: nat, x: T, y: T)
    requires x in Top(SortBy(xs, key), n) && y in xs && y !in Top(SortBy(xs, key), n)
    ensures !Before(key(y), key(x)) && |Top(SortBy(xs, key), n)| == n
  {
    var r := SortBy(xs, key);
    SortHolds(xs, key, y);
    SortIsOrdered(xs, key);
    var i :| 0 <= i < |Top(r, n)| && Top(r, n)[i] == x;
    var j :| 0 <= j < |r| && r[j] == y;
    assert r[i] == x;
    assert forall k :: 0 <= k < |Top(r, n)| ==> r[k] in Top(r, n);
  }

  // ------------------------------------------------------------------ events

  /** The series is part of an event's identity. */
  datatype EventKey = EventKey(series: Key, event: Key)

  function EventOf(m: Market): EventKey {
    EventKey(m.series, m.event)
  }

  /** Candidates, in ticker order. */
  function Selected(order: seq<Ticker>, listed: Listing, g: Group, categories: Categories): seq<Ticker>
    requires Known(listed, order)
  {
    if order == [] then [] else
      var t := order[|order| - 1];
      Selected(order[..|order| - 1], listed, g, categories) + (if Selects(g, listed[t], categories) then [t] else [])
  }

  /** Tickers the listing has. */
  predicate Known(listed: Listing, ts: seq<Ticker>) {
    forall i :: 0 <= i < |ts| ==> ts[i] in listed
  }

  function EventsOf(listed: Listing, ts: seq<Ticker>): seq<EventKey>
    requires Known(listed, ts)
  {
    if ts == [] then [] else
      var init, k := EventsOf(listed, ts[..|ts| - 1]), EventOf(listed[ts[|ts| - 1]]);
      if k in init then init else init + [k]
  }

  /** An event's markets among the candidates. */
  function MarketsOf(listed: Listing, ts: seq<Ticker>, k: EventKey): seq<Ticker>
    requires Known(listed, ts)
  {
    if ts == [] then [] else
      MarketsOf(listed, ts[..|ts| - 1], k) + (if EventOf(listed[ts[|ts| - 1]]) == k then [ts[|ts| - 1]] else [])
  }

  function EventVolume(listed: Listing, ts: seq<Ticker>): int
    requires Known(listed, ts)
  {
    if ts == [] then 0 else EventVolume(listed, ts[..|ts| - 1]) + listed[ts[|ts| - 1]].volume
  }

  function Earlier(a: Option<int>, b: Option<int>): Option<int> {
    if a.None? then b else if b.None? then a else Some(Min(a.value, b.value))
  }

  function EarliestClose(listed: Listing, ts: seq<Ticker>): Option<int>
    requires Known(listed, ts)
  {
    if ts == [] then None else Earlier(EarliestClose(listed, ts[..|ts| - 1]), listed[ts[|ts| - 1]].close)
  }

  lemma {:induction false} SelectedAre(order: seq<Ticker>, listed: Listing, g: Group, categories: Categories, t: Ticker)
    requires Known(listed, order)
    ensures t in Selected(order, listed, g, categories) <==> t in order && Selects(g, listed[t], categories)
    ensures Distinct(order) ==> Distinct(Selected(order, listed, g, categories))
  {
    if order != [] {
      var init, last := order[..|order| - 1], order[|order| - 1];
      assert order == init + [last];
      SelectedAre(init, listed, g, categories, t);
      SelectedAre(init, listed, g, categories, last);
      if Distinct(order) { assert last !in init; }
    }
  }

  lemma {:induction false} EventsAre(listed: Listing, ts: seq<Ticker>, k: EventKey)
    requires Known(listed, ts)
    ensures Distinct(EventsOf(listed, ts)) && (k in EventsOf(listed, ts) <==> MarketsOf(listed, ts, k) != [])
  {
    if ts != [] {
      EventsAre(listed, ts[..|ts| - 1], k);
      EventsAre(listed, ts[..|ts| - 1], EventOf(listed[ts[|ts| - 1]]));
    }
  }

  lemma {:induction false} MarketsAre(listed: Listing, ts: seq<Ticker>, k: EventKey, t: Ticker)
    requires Known(listed, ts)
    ensures t in MarketsOf(listed, ts, k) <==> t in ts && EventOf(listed[t]) == k
    ensures Distinct(ts) ==> Distinct(MarketsOf(listed, ts, k))
  {
    if ts != [] {
      var init, last := ts[..|ts| - 1], ts[|ts| - 1];
      assert ts == init + [last];
      MarketsAre(listed, init, k, t);
      MarketsAre(listed, init, k, last);
      if Distinct(ts) { assert last !in init; }
    }
  }

  /** The earliest close is a minimum: known if any is, attained, and below every other. */
  lemma {:induction false} EarliestIsLeast(listed: Listing, ts: seq<Ticker>, t: Ticker)
    requires Known(listed, ts) && t in ts && listed[t].close.Some?
    ensures EarliestClose(listed, ts).Some? && EarliestClose(listed, ts).value <= listed[t].close.value
  {
    var init, last := ts[..|ts| - 1], ts[|ts| - 1];
    assert ts == init + [last];
    if t in init { EarliestIsLeast(listed, init, t); }
  }

  // ------------------------------------------------------------------ ranking keys

  function CloseOrder(close: Option<int>): seq<int> {
    if close.None? then [1, 0] else [0, close.value]
  }

  function NearestRank(close: Option<int>, k: EventKey): seq<int> {
    CloseOrder(close) + [k.event.rank]
  }

  function BusiestRank(volume: int, close: Option<int>, k: EventKey): seq<int> {
    [-volume] + CloseOrder(close) + [k.event.rank, k.series.rank]
  }

  function NearestKey(listed: Listing, ts: seq<Ticker>): EventKey -> seq<int>
    requires Known(listed, ts)
  {
    MarketsAreKnown(listed, ts);
    k => NearestRank(EarliestClose(listed, MarketsOf(listed, ts, k)), k)
  }

  lemma MarketsAreKnown(listed: Listing, ts: seq<Ticker>)
    requires Known(listed, ts)
    ensures forall k :: Known(listed, MarketsOf(listed, ts, k))
  {
    forall k, i | 0 <= i < |MarketsOf(listed, ts, k)| ensures MarketsOf(listed, ts, k)[i] in listed {
      MarketsAre(listed, ts, k, MarketsOf(listed, ts, k)[i]);
    }
  }

  function BusiestKey(listed: Listing, ts: seq<Ticker>): EventKey -> seq<int>
    requires Known(listed, ts)
  {
    MarketsAreKnown(listed, ts);
    k => BusiestRank(EventVolume(listed, MarketsOf(listed, ts, k)), EarliestClose(listed, MarketsOf(listed, ts, k)), k)
  }

  /** `yes_mid`; prices are not negative. */
  function YesMid(m: Market): Option<nat> {
    if m.bid.Some? && m.ask.Some? then Some((m.bid.value + m.ask.value) / 2) else m.last
  }

  function Distance(mid: nat, thresholds: bool): int {
    if !thresholds then PRICE_MAX - mid else if mid >= HALF_PRICE then mid - HALF_PRICE else HALF_PRICE - mid
  }

  function VolumeOrder(m: Market): seq<int> {
    [-m.volume] + CloseOrder(m.close) + [m.ticker.rank]
  }

  function MarketRank(m: Market, nearPrice: bool, thresholds: bool): seq<int> {
    if !nearPrice then [0, 0] + VolumeOrder(m)
    else if YesMid(m).None? then [1, 0] + VolumeOrder(m)
    else [0, Distance(YesMid(m).value, thresholds)] + VolumeOrder(m)
  }

  /** Every market of the event is a threshold. */
  predicate AllThresholds(listed: Listing, ts: seq<Ticker>)
    requires Known(listed, ts)
  {
    forall i :: 0 <= i < |ts| ==> listed[ts[i]].strike.Some? && listed[ts[i]].strike.value in THRESHOLDS
  }

  function MarketKey(listed: Listing, event: seq<Ticker>, nearPrice: bool): Ticker -> seq<int>
    requires Known(listed, event)
  {
    var thresholds := AllThresholds(listed, event);
    t => if t in listed then MarketRank(listed[t], nearPrice, thresholds) else []
  }

  // ------------------------------------------------------------------ what a group chooses

  predicate InHorizon(listed: Listing, ts: seq<Ticker>, k: EventKey, g: Group, now: int)
    requires Known(listed, ts)
  {
    MarketsAreKnown(listed, ts);
    var close := EarliestClose(listed, MarketsOf(listed, ts, k));
    g.maxHours.None? || (close.Some? && close.value <= now + g.maxHours.value * SECONDS_PER_HOUR)
  }

  function WithinHorizon(listed: Listing, ts: seq<Ticker>, keys: seq<EventKey>, g: Group, now: int): seq<EventKey>
    requires Known(listed, ts)
  {
    if keys == [] then [] else
      WithinHorizon(listed, ts, keys[..|keys| - 1], g, now)
      + (if InHorizon(listed, ts, keys[|keys| - 1], g, now) then [keys[|keys| - 1]] else [])
  }

  function OfSeries(keys: seq<EventKey>, series: Key): seq<EventKey> {
    if keys == [] then [] else
      OfSeries(keys[..|keys| - 1], series) + (if keys[|keys| - 1].series == series then [keys[|keys| - 1]] else [])
  }

  predicate Loud(listed: Listing, ts: seq<Ticker>, k: EventKey, floor: int)
    requires Known(listed, ts)
  {
    MarketsAreKnown(listed, ts);
    EventVolume(listed, MarketsOf(listed, ts, k)) >= floor
  }

  function LoudOnes(listed: Listing, ts: seq<Ticker>, keys: seq<EventKey>, floor: int): seq<EventKey>
    requires Known(listed, ts)
  {
    if keys == [] then [] else
      LoudOnes(listed, ts, keys[..|keys| - 1], floor)
          + (if Loud(listed, ts, keys[|keys| - 1], floor) then [keys[|keys| - 1]] else [])
  }

  function NearestOf(listed: Listing, ts: seq<Ticker>, keys: seq<EventKey>, series: Key, events: nat): seq<EventKey>
    requires Known(listed, ts)
  {
    Top(SortBy(OfSeries(keys, series), NearestKey(listed, ts)), events)
  }

  function NearestOfEach(
      listed: Listing, ts: seq<Ticker>, keys: seq<EventKey>, series: seq<Key>, events: nat): seq<EventKey>
    requires Known(listed, ts)
  {
    if series == [] then [] else
      NearestOfEach(listed, ts, keys, series[..|series| - 1], events)
          + NearestOf(listed, ts, keys, series[|series| - 1], events)
  }

  function BusiestOnes(listed: Listing, ts: seq<Ticker>, keys: seq<EventKey>, floor: int, events: nat): seq<EventKey>
    requires Known(listed, ts)
  {
    Top(SortBy(LoudOnes(listed, ts, keys, floor), BusiestKey(listed, ts)), events)
  }

  function ChosenEvents(listed: Listing, ts: seq<Ticker>, g: Group, floor: int, now: int): seq<EventKey>
    requires Known(listed, ts)
  {
    var within := WithinHorizon(listed, ts, EventsOf(listed, ts), g, now);
    match g.selector
    case BySeries(series) => NearestOfEach(listed, ts, within, series, g.events)
    case ByCategory(_) => BusiestOnes(listed, ts, within, floor, g.events)
  }

  /** The markets a group takes of one event. */
  function TakenOf(listed: Listing, ts: seq<Ticker>, g: Group, k: EventKey): seq<Ticker>
    requires Known(listed, ts)
  {
    Top(SortBy(MarketsOf(listed, ts, k), RankIn(listed, ts, g, k)), g.perEvent)
  }

  function TakenOfEach(listed: Listing, ts: seq<Ticker>, g: Group, keys: seq<EventKey>): seq<Ticker>
    requires Known(listed, ts)
  {
    if keys == [] then [] else TakenOfEach(listed, ts, g, keys[..|keys| - 1]) + TakenOf(listed, ts, g, keys[|keys| - 1])
  }

  /** `_choose`: the markets, in the order the group admits them. */
  function Choose(listed: Listing, ts: seq<Ticker>, g: Group, floor: int, now: int): seq<Ticker>
    requires Known(listed, ts)
  {
    var all := TakenOfEach(listed, ts, g, ChosenEvents(listed, ts, g, floor, now));
    if g.maxMarkets.None? then all else Top(all, g.maxMarkets.value)
  }

  /** Why a candidate that was not chosen was passed over. */
  function PassedFor(listed: Listing, ts: seq<Ticker>, g: Group, floor: int, now: int, t: Ticker): Reason
    requires Known(listed, ts) && t in listed
  {
    var k := EventOf(listed[t]);
    if !InHorizon(listed, ts, k, g, now) then EventBeyondHorizon
    else if g.selector.ByCategory? && !Loud(listed, ts, k, floor) then BelowVolume
    else if k !in ChosenEvents(listed, ts, g, floor, now) then EventNotChosen
    else if t !in TakenOf(listed, ts, g, k) then OverEventCap
    else OverGroupCap
  }

  lemma {:induction false} WithinAre(
      listed: Listing, ts: seq<Ticker>, keys: seq<EventKey>, g: Group, now: int, k: EventKey)
    requires Known(listed, ts)
    ensures k in WithinHorizon(listed, ts, keys, g, now) <==> k in keys && InHorizon(listed, ts, k, g, now)
    ensures Distinct(keys) ==> Distinct(WithinHorizon(listed, ts, keys, g, now))
  {
    if keys != [] {
      var init, last := keys[..|keys| - 1], keys[|keys| - 1];
      assert keys == init + [last];
      WithinAre(listed, ts, init, g, now, k);
      WithinAre(listed, ts, init, g, now, last);
      if Distinct(keys) { assert last !in init; }
    }
  }

  lemma {:induction false} OfSeriesAre(keys: seq<EventKey>, series: Key, k: EventKey)
    ensures k in OfSeries(keys, series) <==> k in keys && k.series == series
    ensures Distinct(keys) ==> Distinct(OfSeries(keys, series))
  {
    if keys != [] {
      var init, last := keys[..|keys| - 1], keys[|keys| - 1];
      assert keys == init + [last];
      OfSeriesAre(init, series, k);
      OfSeriesAre(init, series, last);
      if Distinct(keys) { assert last !in init; }
    }
  }

  lemma {:induction false} LoudAre(listed: Listing, ts: seq<Ticker>, keys: seq<EventKey>, floor: int, k: EventKey)
    requires Known(listed, ts)
    ensures k in LoudOnes(listed, ts, keys, floor) <==> k in keys && Loud(listed, ts, k, floor)
    ensures Distinct(keys) ==> Distinct(LoudOnes(listed, ts, keys, floor))
  {
    if keys != [] {
      var init, last := keys[..|keys| - 1], keys[|keys| - 1];
      assert keys == init + [last];
      LoudAre(listed, ts, init, floor, k);
      LoudAre(listed, ts, init, floor, last);
      if Distinct(keys) { assert last !in init; }
    }
  }

  lemma TopHolds<T>(xs: seq<T>, key: T -> seq<int>, n: nat, x: T)
    ensures x in Top(SortBy(xs, key), n) ==> x in xs
    ensures |Top(SortBy(xs, key), n)| <= n && (Distinct(xs) ==> Distinct(Top(SortBy(xs, key), n)))
  {
    SortHolds(xs, key, x);
    if Distinct(xs) { SortIsDistinct(xs, key); }
    assert x in Top(SortBy(xs, key), n) ==> x in SortBy(xs, key);
  }

  lemma NearestAre(listed: Listing, ts: seq<Ticker>, keys: seq<EventKey>, series: Key, events: nat, k: EventKey)
    requires Known(listed, ts)
    ensures k in NearestOf(listed, ts, keys, series, events) ==> k in keys && k.series == series
    ensures |NearestOf(listed, ts, keys, series, events)| <= events
    ensures Distinct(keys) ==> Distinct(NearestOf(listed, ts, keys, series, events))
  {
    TopHolds(OfSeries(keys, series), NearestKey(listed, ts), events, k);
    OfSeriesAre(keys, series, k);
  }

  lemma {:induction false} NearestOfEachAre(
      listed: Listing, ts: seq<Ticker>, keys: seq<EventKey>, series: seq<Key>, events: nat, k: EventKey)
    requires Known(listed, ts)
    ensures k in NearestOfEach(listed, ts, keys, series, events) ==> k in keys && k.series in series
  {
    if series != [] {
      var init, last := series[..|series| - 1], series[|series| - 1];
      assert series == init + [last];
      NearestOfEachAre(listed, ts, keys, init, events, k);
      NearestAre(listed, ts, keys, last, events, k);
    }
  }

  lemma {:induction false} NearestOfEachDistinct(
      listed: Listing, ts: seq<Ticker>, keys: seq<EventKey>, series: seq<Key>, events: nat)
    requires Known(listed, ts) && Distinct(keys) && Distinct(series)
    ensures Distinct(NearestOfEach(listed, ts, keys, series, events))
  {
    if series != [] {
      var init, last := series[..|series| - 1], series[|series| - 1];
      NearestOfEachDistinct(listed, ts, keys, init, events);
      var before, more := NearestOfEach(listed, ts, keys, init, events), NearestOf(listed, ts, keys, last, events);
      NearestAre(listed, ts, keys, last, events, EventKey(last, last));
      forall i, j | 0 <= i < |before| && 0 <= j < |more| ensures before[i] != more[j] {
        NearestOfEachAre(listed, ts, keys, init, events, before[i]);
        NearestAre(listed, ts, keys, last, events, more[j]);
      }
    }
  }

  /** A group that a policy accepts names no series twice. */
  ghost predicate ValidGroup(g: Group) {
    g.selector.BySeries? ==> Distinct(g.selector.series)
  }

  /** Chosen events are events of the candidates within the horizon, each once. */
  lemma ChosenEventsAre(listed: Listing, ts: seq<Ticker>, g: Group, floor: int, now: int, k: EventKey)
    requires Known(listed, ts) && ValidGroup(g)
    ensures Distinct(ChosenEvents(listed, ts, g, floor, now))
    ensures k in ChosenEvents(listed, ts, g, floor, now) ==>
            k in EventsOf(listed, ts) && InHorizon(listed, ts, k, g, now)
    ensures g.selector.ByCategory? ==> |ChosenEvents(listed, ts, g, floor, now)| <= g.events
    ensures k in ChosenEvents(listed, ts, g, floor, now) && g.selector.ByCategory? ==> Loud(listed, ts, k, floor)
  {
    var keys := EventsOf(listed, ts);
    var within := WithinHorizon(listed, ts, keys, g, now);
    EventsAre(listed, ts, k);
    WithinAre(listed, ts, keys, g, now, k);
    match g.selector
    case BySeries(series) =>
      NearestOfEachDistinct(listed, ts, within, series, g.events);
      NearestOfEachAre(listed, ts, within, series, g.events, k);
    case ByCategory(_) =>
      LoudAre(listed, ts, within, floor, k);
      TopHolds(LoudOnes(listed, ts, within, floor), BusiestKey(listed, ts), g.events, k);
  }

  lemma TakenAre(listed: Listing, ts: seq<Ticker>, g: Group, k: EventKey, t: Ticker)
    requires Known(listed, ts) && Distinct(ts)
    ensures t in TakenOf(listed, ts, g, k) ==> t in ts && EventOf(listed[t]) == k
    ensures Distinct(TakenOf(listed, ts, g, k)) && |TakenOf(listed, ts, g, k)| <= g.perEvent
  {
    MarketsAre(listed, ts, k, t);
    TopHolds(MarketsOf(listed, ts, k), RankIn(listed, ts, g, k), g.perEvent, t);
  }

  lemma {:induction false} TakenOfEachAre(listed: Listing, ts: seq<Ticker>, g: Group, keys: seq<EventKey>, t: Ticker)
    requires Known(listed, ts) && Distinct(ts)
    ensures t in TakenOfEach(listed, ts, g, keys)
            <==> t in ts && EventOf(listed[t]) in keys && t in TakenOf(listed, ts, g, EventOf(listed[t]))
  {
    if keys != [] {
      var init, last := keys[..|keys| - 1], keys[|keys| - 1];
      assert keys == init + [last];
      TakenOfEachAre(listed, ts, g, init, t);
      TakenAre(listed, ts, g, last, t);
    }
  }

  lemma {:induction false} TakenOfEachDistinct(listed: Listing, ts: seq<Ticker>, g: Group, keys: seq<EventKey>)
    requires Known(listed, ts) && Distinct(ts) && Distinct(keys)
    ensures Distinct(TakenOfEach(listed, ts, g, keys))
  {
    if keys != [] {
      var init, last := keys[..|keys| - 1], keys[|keys| - 1];
      TakenOfEachDistinct(listed, ts, g, init);
      var before, more := TakenOfEach(listed, ts, g, init), TakenOf(listed, ts, g, last);
      TakenAre(listed, ts, g, last, Key(0));
      forall i, j | 0 <= i < |before| && 0 <= j < |more| ensures before[i] != more[j] {
        TakenOfEachAre(listed, ts, g, init, before[i]);
        TakenAre(listed, ts, g, last, more[j]);
        assert keys[|keys| - 1] == last && last !in init;
      }
    }
  }

  /** What a group chooses are candidates, each once. */
  lemma ChosenAre(listed: Listing, ts: seq<Ticker>, g: Group, floor: int, now: int)
    requires Known(listed, ts) && Distinct(ts) && ValidGroup(g)
    ensures var c := Choose(listed, ts, g, floor, now);
            Distinct(c) && (g.maxMarkets.Some? ==> |c| <= g.maxMarkets.value) && forall i :: 0 <= i < |c| ==> c[i] in ts
  {
    var keys := ChosenEvents(listed, ts, g, floor, now);
    ChosenEventsAre(listed, ts, g, floor, now, EventKey(Key(0), Key(0)));
    TakenOfEachDistinct(listed, ts, g, keys);
    var all := TakenOfEach(listed, ts, g, keys);
    forall i | 0 <= i < |all| ensures all[i] in ts { TakenOfEachAre(listed, ts, g, keys, all[i]); }
  }

  // ------------------------------------------------------------------ when no cap binds

  /** The group could take that many markets, of that many events, of each event. */
  predicate Roomy(g: Group, n: nat) {
    n <= g.events && n <= g.perEvent && (g.maxMarkets.Some? ==> n <= g.maxMarkets.value)
  }

  /** Nothing but a cap could keep the market out. */
  predicate Wanted(listed: Listing, ts: seq<Ticker>, g: Group, floor: int, now: int, t: Ticker)
    requires Known(listed, ts) && t in listed
  {
    && InHorizon(listed, ts, EventOf(listed[t]), g, now)
    && match g.selector
       case BySeries(series) => listed[t].series in series
       case ByCategory(_) => Loud(listed, ts, EventOf(listed[t]), floor)
  }

  lemma {:induction false} EventsAreFew(listed: Listing, ts: seq<Ticker>)
    requires Known(listed, ts)
    ensures |EventsOf(listed, ts)| <= |ts|
  {
    if ts != [] { EventsAreFew(listed, ts[..|ts| - 1]); }
  }

  lemma {:induction false} MarketsAreFew(listed: Listing, ts: seq<Ticker>, k: EventKey)
    requires Known(listed, ts)
    ensures |MarketsOf(listed, ts, k)| <= |ts|
  {
    if ts != [] { MarketsAreFew(listed, ts[..|ts| - 1], k); }
  }

  lemma {:induction false} WithinAreFew(listed: Listing, ts: seq<Ticker>, keys: seq<EventKey>, g: Group, now: int)
    requires Known(listed, ts)
    ensures |WithinHorizon(listed, ts, keys, g, now)| <= |keys|
  {
    if keys != [] { WithinAreFew(listed, ts, keys[..|keys| - 1], g, now); }
  }

  lemma {:induction false} OfSeriesAreFew(keys: seq<EventKey>, series: Key)
    ensures |OfSeries(keys, series)| <= |keys|
  {
    if keys != [] { OfSeriesAreFew(keys[..|keys| - 1], series); }
  }

  lemma {:induction false} LoudAreFew(listed: Listing, ts: seq<Ticker>, keys: seq<EventKey>, floor: int)
    requires Known(listed, ts)
    ensures |LoudOnes(listed, ts, keys, floor)| <= |keys|
  {
    if keys != [] { LoudAreFew(listed, ts, keys[..|keys| - 1], floor); }
  }

  lemma TopHoldsAll<T>(xs: seq<T>, key: T -> seq<int>, n: nat, x: T)
    requires |xs| <= n
    ensures x in Top(SortBy(xs, key), n) <==> x in xs
  {
    SortHolds(xs, key, x);
    assert Top(SortBy(xs, key), n) == SortBy(xs, key);
  }

  lemma RoomyChoosesEvent(listed: Listing, ts: seq<Ticker>, g: Group, floor: int, now: int, t: Ticker)
    requires Known(listed, ts) && ValidGroup(g) && Roomy(g, |ts|) && t in ts && Wanted(listed, ts, g, floor, now, t)
    ensures EventOf(listed[t]) in ChosenEvents(listed, ts, g, floor, now)
  {
    var k, keys := EventOf(listed[t]), EventsOf(listed, ts);
    var within := WithinHorizon(listed, ts, keys, g, now);
    MarketsAre(listed, ts, k, t);
    EventsAre(listed, ts, k);
    WithinAre(listed, ts, keys, g, now, k);
    EventsAreFew(listed, ts);
    WithinAreFew(listed, ts, keys, g, now);
    match g.selector
    case BySeries(series) =>
      OfSeriesAre(within, k.series, k);
      OfSeriesAreFew(within, k.series);
      TopHoldsAll(OfSeries(within, k.series), NearestKey(listed, ts), g.events, k);
      NearestIsOfEach(listed, ts, within, series, g.events, k.series, k);
    case ByCategory(_) =>
      LoudAre(listed, ts, within, floor, k);
      LoudAreFew(listed, ts, within, floor);
      TopHoldsAll(LoudOnes(listed, ts, within, floor), BusiestKey(listed, ts), g.events, k);
  }

  /** A group with room for all its candidates chooses every one that it wants. */
  lemma RoomyChooses(listed: Listing, ts: seq<Ticker>, g: Group, floor: int, now: int, t: Ticker)
    requires Known(listed, ts) && Distinct(ts) && ValidGroup(g) && Roomy(g, |ts|) && t in ts
             && Wanted(listed, ts, g, floor, now, t)
    ensures t in Choose(listed, ts, g, floor, now)
  {
    RoomyChoosesEvent(listed, ts, g, floor, now, t);
    RoomyTakes(listed, ts, g, t);
    TakenOfEachAre(listed, ts, g, ChosenEvents(listed, ts, g, floor, now), t);
    TakenAreFew(listed, ts, g, floor, now);
  }

  lemma RoomyTakes(listed: Listing, ts: seq<Ticker>, g: Group, t: Ticker)
    requires Known(listed, ts) && |ts| <= g.perEvent && t in ts
    ensures t in TakenOf(listed, ts, g, EventOf(listed[t]))
  {
    var k := EventOf(listed[t]);
    MarketsAre(listed, ts, k, t);
    MarketsAreFew(listed, ts, k);
    TopHoldsAll(MarketsOf(listed, ts, k), RankIn(listed, ts, g, k), g.perEvent, t);
  }

  lemma TakenAreFew(listed: Listing, ts: seq<Ticker>, g: Group, floor: int, now: int)
    requires Known(listed, ts) && Distinct(ts) && ValidGroup(g)
    ensures |TakenOfEach(listed, ts, g, ChosenEvents(listed, ts, g, floor, now))| <= |ts|
  {
    var keys := ChosenEvents(listed, ts, g, floor, now);
    var all := TakenOfEach(listed, ts, g, keys);
    ChosenEventsAre(listed, ts, g, floor, now, EventKey(Key(0), Key(0)));
    TakenOfEachDistinct(listed, ts, g, keys);
    forall t | t in all ensures t in ts { TakenOfEachAre(listed, ts, g, keys, t); }
    assert Elems(all) <= Elems(ts);
    Subset(Elems(all), Elems(ts));
    DistinctCount(all);
    ElemsAreFew(ts);
  }

  // ------------------------------------------------------------------ the caps

  function EventSet(listed: Listing, c: seq<Ticker>): set<EventKey>
    requires Known(listed, c)
  {
    if c == [] then {} else EventSet(listed, c[..|c| - 1]) + {EventOf(listed[c[|c| - 1]])}
  }

  lemma {:induction false} EventSetHas(listed: Listing, c: seq<Ticker>, k: EventKey)
    requires Known(listed, c)
    ensures k in EventSet(listed, c) <==> exists i :: 0 <= i < |c| && EventOf(listed[c[i]]) == k
  {
    if c != [] {
      var init := c[..|c| - 1];
      EventSetHas(listed, init, k);
      if k in EventSet(listed, init) {
        var i :| 0 <= i < |init| && EventOf(listed[init[i]]) == k;
        assert c[i] == init[i];
      }
      if i :| 0 <= i < |c| && EventOf(listed[c[i]]) == k {
        if i < |init| { assert init[i] == c[i]; }
      }
    }
  }

  /** The counts a group caps: markets in all, markets of one event, and events in all or of one series. */
  ghost predicate CountCaps(listed: Listing, g: Group, c: seq<Ticker>)
    requires Known(listed, c)
  {
    && (g.maxMarkets.Some? ==> |c| <= g.maxMarkets.value)
    && FewOfEachEvent(listed, c, g.perEvent)
    && match g.selector
       case ByCategory(_) => |EventSet(listed, c)| <= g.events
       case BySeries(series) => FewOfEachSeries(EventSet(listed, c), g.events)
  }

  ghost predicate FewOfEachEvent(listed: Listing, c: seq<Ticker>, most: nat)
    requires Known(listed, c)
  {
    forall k :: |MarketsOf(listed, c, k)| <= most
  }

  ghost predicate FewOfEachSeries(keys: set<EventKey>, most: nat) {
    forall s :: |OfOneSeries(keys, s)| <= most
  }

  /** Every event admitted from is within the group's horizon, as its candidates show. */
  ghost predicate HorizonKept(listed: Listing, ts: seq<Ticker>, g: Group, now: int, c: seq<Ticker>)
    requires Known(listed, ts) && Known(listed, c)
  {
    forall i :: 0 <= i < |c| ==> InHorizon(listed, ts, EventOf(listed[c[i]]), g, now)
  }

  /** The caps a group sets on what it admits of its candidates. */
  ghost predicate WithinCaps(listed: Listing, ts: seq<Ticker>, g: Group, now: int, c: seq<Ticker>)
    requires Known(listed, ts) && Known(listed, c)
  {
    CountCaps(listed, g, c) && HorizonKept(listed, ts, g, now, c)
  }

  /** A market of the event closes by then. */
  ghost predicate ClosesBy(listed: Listing, ts: seq<Ticker>, k: EventKey, limit: int)
    requires Known(listed, ts)
  {
    exists i :: 0 <= i < |ts| && EventOf(listed[ts[i]]) == k && listed[ts[i]].close.Some?
        && listed[ts[i]].close.value <= limit
  }

  lemma {:induction false} EarliestIsOne(listed: Listing, ts: seq<Ticker>) returns (t: Ticker)
    requires Known(listed, ts) && EarliestClose(listed, ts).Some?
    ensures t in ts && listed[t].close == EarliestClose(listed, ts)
  {
    var init, last := ts[..|ts| - 1], ts[|ts| - 1];
    assert ts == init + [last];
    t := last;
    if EarliestClose(listed, ts) != listed[last].close { t := EarliestIsOne(listed, init); }
  }

  /** An event is within the horizon exactly when the group has none or a market of the event closes within it. */
  lemma HorizonMeans(listed: Listing, ts: seq<Ticker>, k: EventKey, g: Group, now: int)
    requires Known(listed, ts)
    ensures InHorizon(listed, ts, k, g, now)
            <==> g.maxHours.None? || ClosesBy(listed, ts, k, now + g.maxHours.value * SECONDS_PER_HOUR)
  {
    MarketsAreKnown(listed, ts);
    var own := MarketsOf(listed, ts, k);
    if g.maxHours.Some? {
      var limit := now + g.maxHours.value * SECONDS_PER_HOUR;
      if InHorizon(listed, ts, k, g, now) {
        var t := EarliestIsOne(listed, own);
        MarketsAre(listed, ts, k, t);
        var i :| 0 <= i < |ts| && ts[i] == t;
        assert EventOf(listed[ts[i]]) == k;
      }
      if ClosesBy(listed, ts, k, limit) {
        var i :| 0 <= i < |ts| && EventOf(listed[ts[i]]) == k && listed[ts[i]].close.Some?
          && listed[ts[i]].close.value <= limit;
        MarketsAre(listed, ts, k, ts[i]);
        EarliestIsLeast(listed, own, ts[i]);
      }
    }
  }

  // ------------------------------------------------------------------ room for one more

  /** The events that count against the one the market is of. */
  function Rivals(listed: Listing, g: Group, c: seq<Ticker>, k: EventKey): set<EventKey>
    requires Known(listed, c)
  {
    if g.selector.ByCategory? then EventSet(listed, c) else OfOneSeries(EventSet(listed, c), k.series)
  }

  /** The group still has room for the `j`th of some markets when those before it are taken. */
  ghost predicate Room(listed: Listing, g: Group, c: seq<Ticker>, j: nat)
    requires Known(listed, c) && j < |c|
  {
    var k := EventOf(listed[c[j]]);
    && (g.maxMarkets.Some? ==> j < g.maxMarkets.value)
    && |MarketsOf(listed, c[..j], k)| < g.perEvent
    && (k in EventSet(listed, c[..j]) || |Rivals(listed, g, c[..j], k)| < g.events)
  }

  lemma MarketsSnoc(listed: Listing, c: seq<Ticker>, t: Ticker, k: EventKey)
    requires Known(listed, c) && t in listed
    ensures MarketsOf(listed, c + [t], k) == MarketsOf(listed, c, k) + (if EventOf(listed[t]) == k then [t] else [])
    ensures EventSet(listed, c + [t]) == EventSet(listed, c) + {EventOf(listed[t])}
  {
    assert (c + [t])[..|c|] == c;
  }

  lemma OneMoreOfEvent(listed: Listing, c: seq<Ticker>, t: Ticker, most: nat)
    requires Known(listed, c) && t in listed && Known(listed, c + [t])
    ensures FewOfEachEvent(listed, c + [t], most)
            <==> FewOfEachEvent(listed, c, most) && |MarketsOf(listed, c, EventOf(listed[t]))| < most
  {
    MarketsSnoc(listed, c, t, EventOf(listed[t]));
    if FewOfEachEvent(listed, c + [t], most) {
      assert |MarketsOf(listed, c + [t], EventOf(listed[t]))| <= most;
      forall k ensures |MarketsOf(listed, c, k)| <= most {
        MarketsSnoc(listed, c, t, k);
        assert |MarketsOf(listed, c + [t], k)| <= most;
      }
    }
    if FewOfEachEvent(listed, c, most) && |MarketsOf(listed, c, EventOf(listed[t]))| < most {
      forall k ensures |MarketsOf(listed, c + [t], k)| <= most {
        MarketsSnoc(listed, c, t, k);
        assert |MarketsOf(listed, c, k)| <= most;
      }
    }
  }

  lemma OneMoreKey(keys: set<EventKey>, k: EventKey)
    ensures |keys + {k}| == if k in keys then |keys| else |keys| + 1
  {
    if k in keys { assert keys + {k} == keys; }
  }

  lemma OneMoreOfSeries(keys: set<EventKey>, k: EventKey, s: Key)
    ensures |OfOneSeries(keys + {k}, s)| == |OfOneSeries(keys, s)| + (if k.series == s && k !in keys then 1 else 0)
  {
    if k.series == s {
      assert OfOneSeries(keys + {k}, s) == OfOneSeries(keys, s) + {k};
      OneMoreKey(OfOneSeries(keys, s), k);
    } else {
      assert OfOneSeries(keys + {k}, s) == OfOneSeries(keys, s);
    }
  }

  lemma OneMoreSeries(keys: set<EventKey>, k: EventKey, most: nat)
    ensures FewOfEachSeries(keys + {k}, most)
            <==> FewOfEachSeries(keys, most) && (k in keys || |OfOneSeries(keys, k.series)| < most)
  {
    OneMoreOfSeries(keys, k, k.series);
    if FewOfEachSeries(keys + {k}, most) {
      assert |OfOneSeries(keys + {k}, k.series)| <= most;
      forall s ensures |OfOneSeries(keys, s)| <= most {
        OneMoreOfSeries(keys, k, s);
        assert |OfOneSeries(keys + {k}, s)| <= most;
      }
    }
    if FewOfEachSeries(keys, most) && (k in keys || |OfOneSeries(keys, k.series)| < most) {
      forall s ensures |OfOneSeries(keys + {k}, s)| <= most {
        OneMoreOfSeries(keys, k, s);
        assert |OfOneSeries(keys, s)| <= most;
      }
    }
  }

  lemma CountsNext(listed: Listing, g: Group, c: seq<Ticker>, t: Ticker)
    requires Known(listed, c) && t in listed && Known(listed, c + [t])
    ensures CountCaps(listed, g, c + [t]) <==> CountCaps(listed, g, c) && Room(listed, g, c + [t], |c|)
  {
    var k, keys := EventOf(listed[t]), EventSet(listed, c);
    assert (c + [t])[..|c|] == c;
    OneMoreOfEvent(listed, c, t, g.perEvent);
    MarketsSnoc(listed, c, t, k);
    if g.selector.BySeries? { OneMoreSeries(keys, k, g.events); } else { OneMoreKey(keys, k); }
  }

  /** Counts are kept exactly when there is room for each market in turn. */
  lemma {:induction false} CountsKeptIff(listed: Listing, g: Group, c: seq<Ticker>)
    requires Known(listed, c)
    ensures CountCaps(listed, g, c) <==> forall j :: 0 <= j < |c| ==> Room(listed, g, c, j)
  {
    if c == [] {
      NothingCounts(listed, g);
    } else {
      var init, last := c[..|c| - 1], c[|c| - 1];
      assert c == init + [last];
      CountsKeptIff(listed, g, init);
      CountsNext(listed, g, init, last);
      forall j | 0 <= j < |init|
        ensures Room(listed, g, c, j) <==> Room(listed, g, init, j)
      {
        RoomStays(listed, g, c, |init|, j);
      }
    }
  }

  lemma NothingCounts(listed: Listing, g: Group)
    ensures CountCaps(listed, g, [])
  {
    assert EventSet(listed, []) == {} && forall s :: OfOneSeries({}, s) == {};
  }

  lemma RoomStays(listed: Listing, g: Group, c: seq<Ticker>, n: nat, j: nat)
    requires Known(listed, c) && j < n <= |c|
    ensures Room(listed, g, c, j) <==> Room(listed, g, c[..n], j)
  {
    assert c[..n][..j] == c[..j];
  }

  function OfOneSeries(keys: set<EventKey>, series: Key): set<EventKey> {
    set k | k in keys && k.series == series
  }

  lemma {:induction false} EachIsNearest(
      listed: Listing, ts: seq<Ticker>, keys: seq<EventKey>, series: seq<Key>, events: nat, k: EventKey)
    requires Known(listed, ts) && k in NearestOfEach(listed, ts, keys, series, events)
    ensures k in NearestOf(listed, ts, keys, k.series, events)
  {
    var init, last := series[..|series| - 1], series[|series| - 1];
    if k in NearestOfEach(listed, ts, keys, init, events) {
      EachIsNearest(listed, ts, keys, init, events, k);
    } else {
      NearestAre(listed, ts, keys, last, events, k);
    }
  }

  /** Part of what a group chose, each market once. */
  ghost predicate PartOf(c: seq<Ticker>, all: seq<Ticker>) {
    Distinct(c) && |c| <= |all| && forall i :: 0 <= i < |c| ==> c[i] in all
  }

  lemma ChosenMarketIs(listed: Listing, ts: seq<Ticker>, g: Group, floor: int, now: int, t: Ticker)
    requires Known(listed, ts) && Distinct(ts) && ValidGroup(g) && t in Choose(listed, ts, g, floor, now)
    ensures t in ts && EventOf(listed[t]) in ChosenEvents(listed, ts, g, floor, now)
            && t in TakenOf(listed, ts, g, EventOf(listed[t]))
  {
    TakenOfEachAre(listed, ts, g, ChosenEvents(listed, ts, g, floor, now), t);
  }

  lemma FewOfOneEvent(listed: Listing, ts: seq<Ticker>, g: Group, floor: int, now: int, c: seq<Ticker>, k: EventKey)
    requires Known(listed, ts) && Known(listed, c) && Distinct(ts) && ValidGroup(g)
             && PartOf(c, Choose(listed, ts, g, floor, now))
    ensures |MarketsOf(listed, c, k)| <= g.perEvent
  {
    var own, taken := MarketsOf(listed, c, k), TakenOf(listed, ts, g, k);
    TakenAre(listed, ts, g, k, Key(0));
    MarketsAre(listed, c, k, Key(0));
    forall t | t in own ensures t in taken {
      MarketsAre(listed, c, k, t);
      ChosenMarketIs(listed, ts, g, floor, now, t);
    }
    assert Elems(own) <= Elems(taken);
    Subset(Elems(own), Elems(taken));
    DistinctCount(own);
    ElemsAreFew(taken);
  }

  lemma EventsAreChosen(listed: Listing, ts: seq<Ticker>, g: Group, floor: int, now: int, c: seq<Ticker>, k: EventKey)
    requires Known(listed, ts) && Known(listed, c) && Distinct(ts) && ValidGroup(g)
             && PartOf(c, Choose(listed, ts, g, floor, now))
    requires k in EventSet(listed, c)
    ensures k in ChosenEvents(listed, ts, g, floor, now)
  {
    EventSetHas(listed, c, k);
    var i :| 0 <= i < |c| && EventOf(listed[c[i]]) == k;
    ChosenMarketIs(listed, ts, g, floor, now, c[i]);
  }

  lemma FewEvents(listed: Listing, ts: seq<Ticker>, g: Group, floor: int, now: int, c: seq<Ticker>)
    requires Known(listed, ts) && Known(listed, c) && Distinct(ts) && ValidGroup(g)
             && PartOf(c, Choose(listed, ts, g, floor, now))
    ensures g.selector.ByCategory? ==> |EventSet(listed, c)| <= g.events
  {
    var keys := ChosenEvents(listed, ts, g, floor, now);
    forall k | k in EventSet(listed, c) ensures k in keys { EventsAreChosen(listed, ts, g, floor, now, c, k); }
    assert EventSet(listed, c) <= Elems(keys);
    Subset(EventSet(listed, c), Elems(keys));
    ElemsAreFew(keys);
    ChosenEventsAre(listed, ts, g, floor, now, EventKey(Key(0), Key(0)));
  }

  lemma FewEventsOfOneSeries(listed: Listing, ts: seq<Ticker>, g: Group, floor: int, now: int, c: seq<Ticker>, s: Key)
    requires Known(listed, ts) && Known(listed, c) && Distinct(ts) && ValidGroup(g)
             && PartOf(c, Choose(listed, ts, g, floor, now))
    requires g.selector.BySeries?
    ensures |OfOneSeries(EventSet(listed, c), s)| <= g.events
  {
    var within := WithinHorizon(listed, ts, EventsOf(listed, ts), g, now);
    var nearest, own := NearestOf(listed, ts, within, s, g.events), OfOneSeries(EventSet(listed, c), s);
    forall k | k in own ensures k in nearest {
      EventsAreChosen(listed, ts, g, floor, now, c, k);
      EachIsNearest(listed, ts, within, g.selector.series, g.events, k);
    }
    assert own <= Elems(nearest);
    Subset(own, Elems(nearest));
    ElemsAreFew(nearest);
    NearestAre(listed, ts, within, s, g.events, EventKey(s, s));
  }

  /** Whatever part of what it chose a group admits, its caps hold: markets in all, of one event, events in all or of
      one series, and the horizon. */
  lemma CapsHold(listed: Listing, ts: seq<Ticker>, g: Group, floor: int, now: int, c: seq<Ticker>)
    requires Known(listed, ts) && Known(listed, c) && Distinct(ts) && ValidGroup(g)
             && PartOf(c, Choose(listed, ts, g, floor, now))
    ensures WithinCaps(listed, ts, g, now, c)
  {
    ChosenAre(listed, ts, g, floor, now);
    FewEvents(listed, ts, g, floor, now, c);
    forall k ensures |MarketsOf(listed, c, k)| <= g.perEvent { FewOfOneEvent(listed, ts, g, floor, now, c, k); }
    forall i | 0 <= i < |c| ensures InHorizon(listed, ts, EventOf(listed[c[i]]), g, now) {
      ChosenMarketIs(listed, ts, g, floor, now, c[i]);
      ChosenEventsAre(listed, ts, g, floor, now, EventOf(listed[c[i]]));
    }
    if g.selector.BySeries? {
      forall s
        ensures |OfOneSeries(EventSet(listed, c), s)| <= g.events
      {
        FewEventsOfOneSeries(listed, ts, g, floor, now, c, s);
      }
    }
  }

  /** How a group ranks the markets of one event, seen from its candidates. */
  function RankIn(listed: Listing, ts: seq<Ticker>, g: Group, k: EventKey): Ticker -> seq<int>
    requires Known(listed, ts)
  {
    MarketsAreKnown(listed, ts);
    MarketKey(listed, MarketsOf(listed, ts, k), g.nearPrice)
  }

  /** Of one event a group takes as many as it may, the best ranked: none it leaves comes before one it takes. */
  lemma BestOfEachEvent(listed: Listing, ts: seq<Ticker>, g: Group, k: EventKey, t: Ticker, u: Ticker)
    requires Known(listed, ts) && t in TakenOf(listed, ts, g, k) && u in MarketsOf(listed, ts, k)
             && u !in TakenOf(listed, ts, g, k)
    ensures !Before(RankIn(listed, ts, g, k)(u), RankIn(listed, ts, g, k)(t))
            && |TakenOf(listed, ts, g, k)| == g.perEvent
  {
    TopIsFirst(MarketsOf(listed, ts, k), RankIn(listed, ts, g, k), g.perEvent, t, u);
  }

  /** In a category group no loud event left out within the horizon is busier than one chosen. */
  lemma BusiestEventsChosen(listed: Listing, ts: seq<Ticker>, g: Group, floor: int, now: int, j: EventKey, k: EventKey)
    requires Known(listed, ts) && ValidGroup(g) && g.selector.ByCategory?
    requires j in ChosenEvents(listed, ts, g, floor, now) && k !in ChosenEvents(listed, ts, g, floor, now)
    requires k in EventsOf(listed, ts) && InHorizon(listed, ts, k, g, now) && Loud(listed, ts, k, floor)
    ensures !Before(BusiestKey(listed, ts)(k), BusiestKey(listed, ts)(j))
            && |ChosenEvents(listed, ts, g, floor, now)| == g.events
  {
    var keys := EventsOf(listed, ts);
    var within := WithinHorizon(listed, ts, keys, g, now);
    WithinAre(listed, ts, keys, g, now, k);
    LoudAre(listed, ts, within, floor, k);
    TopIsFirst(LoudOnes(listed, ts, within, floor), BusiestKey(listed, ts), g.events, j, k);
  }

  lemma {:induction false} NearestIsOfEach(
      listed: Listing, ts: seq<Ticker>, keys: seq<EventKey>, series: seq<Key>, events: nat, s: Key, k: EventKey)
    requires Known(listed, ts) && s in series && k in NearestOf(listed, ts, keys, s, events)
    ensures k in NearestOfEach(listed, ts, keys, series, events)
  {
    var init, last := series[..|series| - 1], series[|series| - 1];
    assert series == init + [last];
    if s != last { NearestIsOfEach(listed, ts, keys, init, events, s, k); }
  }

  /** In a series group no event left out of a series it lists closes before one chosen of that series. */
  lemma NearestEventsChosen(listed: Listing, ts: seq<Ticker>, g: Group, floor: int, now: int, j: EventKey, k: EventKey)
    requires Known(listed, ts) && ValidGroup(g) && g.selector.BySeries? && k.series == j.series
    requires j in ChosenEvents(listed, ts, g, floor, now) && k !in ChosenEvents(listed, ts, g, floor, now)
    requires k in EventsOf(listed, ts) && InHorizon(listed, ts, k, g, now)
    ensures !Before(NearestKey(listed, ts)(k), NearestKey(listed, ts)(j))
  {
    var keys, series := EventsOf(listed, ts), g.selector.series;
    var within := WithinHorizon(listed, ts, keys, g, now);
    WithinAre(listed, ts, keys, g, now, k);
    OfSeriesAre(within, k.series, k);
    EachIsNearest(listed, ts, within, series, g.events, j);
    NearestOfEachAre(listed, ts, within, series, g.events, j);
    if k in NearestOf(listed, ts, within, k.series, g.events) {
      NearestIsOfEach(listed, ts, within, series, g.events, k.series, k);
    } else {
      TopIsFirst(OfSeries(within, k.series), NearestKey(listed, ts), g.events, j, k);
    }
  }

  // ------------------------------------------------------------------ the groups in turn

  type Pins = map<Key, seq<Ticker>>

  /** What the caller supplies beside the listing. */
  datatype Setting = Setting(policy: Policy, now: int, categories: Categories, pinned: Pins)

  datatype Selection = Selection(name: Key, tickers: seq<Ticker>, skipped: nat)

  datatype State = State(
    unchosen: set<Ticker>, passed: map<Ticker, Reason>, groupOf: map<Ticker, Key>, showcase: set<Ticker>,
    budget: nat, skipped: nat, selections: seq<Selection>)

  /** The markets a group is pinned to that no earlier group chose, in the order given, each once. */
  function StillOpen(pins: seq<Ticker>, unchosen: set<Ticker>): seq<Ticker> {
    if pins == [] then [] else
      var init, t := StillOpen(pins[..|pins| - 1], unchosen), pins[|pins| - 1];
      if t in unchosen && t !in init then init + [t] else init
  }

  lemma {:induction false} StillOpenAre(pins: seq<Ticker>, unchosen: set<Ticker>, t: Ticker)
    ensures t in StillOpen(pins, unchosen) <==> t in pins && t in unchosen
    ensures Distinct(StillOpen(pins, unchosen))
  {
    if pins != [] {
      var init, last := pins[..|pins| - 1], pins[|pins| - 1];
      assert pins == init + [last];
      StillOpenAre(init, unchosen, t);
      StillOpenAre(init, unchosen, last);
    }
  }

  lemma SortedIsKnown(listed: Listing, s: set<Ticker>)
    requires s <= listed.Keys
    ensures Known(listed, Sorted(s))
  {
    forall i | 0 <= i < |Sorted(s)| ensures Sorted(s)[i] in listed { assert Sorted(s)[i] in Sorted(s); }
  }

  /** The candidates of a group: what its selector selects of what no earlier group chose, in ticker order. */
  ghost function Candidates(listed: Listing, unchosen: set<Ticker>, g: Group, categories: Categories): (ts: seq<Ticker>)
    requires unchosen <= listed.Keys
    ensures Known(listed, ts) && Distinct(ts)
            && forall t :: t in ts <==> t in unchosen && Selects(g, listed[t], categories)
  {
    SortedIsKnown(listed, unchosen);
    CandidatesAre(listed, unchosen, g, categories);
    Selected(Sorted(unchosen), listed, g, categories)
  }

  lemma CandidatesAre(listed: Listing, unchosen: set<Ticker>, g: Group, categories: Categories)
    requires unchosen <= listed.Keys && Known(listed, Sorted(unchosen))
    ensures var ts := Selected(Sorted(unchosen), listed, g, categories);
            Known(listed, ts) && Distinct(ts)
            && forall t :: t in ts <==> t in unchosen && Selects(g, listed[t], categories)
  {
    var order := Sorted(unchosen);
    var ts := Selected(order, listed, g, categories);
    SelectedAre(order, listed, g, categories, Key(0));
    forall t
      ensures t in ts <==> t in unchosen && Selects(g, listed[t], categories)
    {
      SelectedAre(order, listed, g, categories, t);
    }
    assert forall i :: 0 <= i < |ts| ==> ts[i] in ts;
  }

  ghost function ChosenBy(listed: Listing, unchosen: set<Ticker>, g: Group, x: Setting): seq<Ticker>
    requires unchosen <= listed.Keys
  {
    if g.name in x.pinned then StillOpen(x.pinned[g.name], unchosen)
    else Choose(listed, Candidates(listed, unchosen, g, x.categories), g, x.policy.minVolume, x.now)
  }

  ghost predicate ValidSetting(x: Setting) {
    && (forall i :: 0 <= i < |x.policy.groups| ==> ValidGroup(x.policy.groups[i]))
    && (forall i, j :: 0 <= i < j < |x.policy.groups| ==> x.policy.groups[i].name != x.policy.groups[j].name)
  }

  lemma ChosenByAre(listed: Listing, unchosen: set<Ticker>, g: Group, x: Setting)
    requires unchosen <= listed.Keys && ValidGroup(g)
    ensures var c := ChosenBy(listed, unchosen, g, x); Distinct(c) && Elems(c) <= unchosen && |Elems(c)| == |c|
  {
    var c := ChosenBy(listed, unchosen, g, x);
    if g.name in x.pinned {
      StillOpenAre(x.pinned[g.name], unchosen, Key(0));
      forall t | t in c ensures t in unchosen { StillOpenAre(x.pinned[g.name], unchosen, t); }
    } else {
      var ts := Candidates(listed, unchosen, g, x.categories);
      ChosenAre(listed, ts, g, x.policy.minVolume, x.now);
      forall t | t in c ensures t in unchosen {
        var i :| 0 <= i < |c| && c[i] == t;
        assert c[i] in ts;
      }
    }
    DistinctCount(c);
  }

  function Said(passed: map<Ticker, Reason>, t: Ticker): Option<Reason> {
    if t in passed then Some(passed[t]) else None
  }

  function OrElse(first: Option<Reason>, second: Option<Reason>): Option<Reason> {
    if first.Some? then first else second
  }

  /** A group that is applied says why it passed over a candidate, unless an earlier one did. */
  ghost function PassedAfter(listed: Listing, st: State, g: Group, x: Setting): map<Ticker, Reason>
    requires st.unchosen <= listed.Keys
  {
    if g.name in x.pinned then st.passed else
      var ts := Candidates(listed, st.unchosen, g, x.categories);
      Recorded(listed, ts, ts, Choose(listed, ts, g, x.policy.minVolume, x.now), st.passed, g, x.policy.minVolume,
          x.now)
  }

  /** Some candidates' reasons recorded, as far as they were not chosen and had none. */
  function Recorded(
      listed: Listing, ts: seq<Ticker>, some: seq<Ticker>, chosen: seq<Ticker>, passed: map<Ticker, Reason>, g: Group,
      floor: int, now: int)
      : map<Ticker, Reason>
    requires Known(listed, ts) && Known(listed, some)
  {
    if some == [] then passed else
      var before, t := Recorded(listed, ts, some[..|some| - 1], chosen, passed, g, floor, now), some[|some| - 1];
      if t in chosen || t in before then before else before[t := PassedFor(listed, ts, g, floor, now, t)]
  }

  lemma {:induction false} RecordedSays(
      listed: Listing, ts: seq<Ticker>, some: seq<Ticker>, chosen: seq<Ticker>, passed: map<Ticker, Reason>, g: Group,
      floor: int, now: int, t: Ticker)
    requires Known(listed, ts) && Known(listed, some) && t in listed
    ensures Said(Recorded(listed, ts, some, chosen, passed, g, floor, now), t)
            == OrElse(Said(passed, t),
                if t in some && t !in chosen then Some(PassedFor(listed, ts, g, floor, now, t)) else None)
  {
    if some != [] {
      var init, last := some[..|some| - 1], some[|some| - 1];
      assert some == init + [last];
      RecordedSays(listed, ts, init, chosen, passed, g, floor, now, t);
    }
  }

  lemma RecordedNext(
      listed: Listing, ts: seq<Ticker>, i: nat, chosen: seq<Ticker>, passed: map<Ticker, Reason>, g: Group, floor: int,
      now: int)
    requires Known(listed, ts) && i < |ts|
    ensures var before := Recorded(listed, ts, ts[..i], chosen, passed, g, floor, now);
            Recorded(listed, ts, ts[..i + 1], chosen, passed, g, floor, now)
              == if ts[i] in chosen || ts[i] in before then before else
                  before[ts[i] := PassedFor(listed, ts, g, floor, now, ts[i])]
  {
    assert ts[..i + 1][..i] == ts[..i];
  }

  /** Markets named for a group. */
  function NamedFor(groupOf: map<Ticker, Key>, name: Key, ts: seq<Ticker>): map<Ticker, Key> {
    if ts == [] then groupOf else NamedFor(groupOf, name, ts[..|ts| - 1])[ts[|ts| - 1] := name]
  }

  lemma {:induction false} NamedForAre(groupOf: map<Ticker, Key>, name: Key, ts: seq<Ticker>)
    ensures NamedFor(groupOf, name, ts).Keys == groupOf.Keys + Elems(ts)
    ensures forall t ::
            t in NamedFor(groupOf, name, ts) ==> NamedFor(groupOf, name, ts)[t] == if t in ts then name else groupOf[t]
  {
    if ts != [] {
      var init, last := ts[..|ts| - 1], ts[|ts| - 1];
      NamedForAre(groupOf, name, init);
      assert ts == init + [last];
      assert Elems(ts) == Elems(init) + {last};
    }
  }

  /** The state once a group has chosen: its markets are admitted while the budget lasts. */
  ghost function Granted(st: State, g: Group, chosen: seq<Ticker>, passed: map<Ticker, Reason>): State {
    var admitted := Top(chosen, st.budget);
    var skipped := |chosen| - |admitted|;
    State(st.unchosen - Elems(chosen), passed, NamedFor(st.groupOf, g.name, admitted),
          if g.selector.BySeries? then st.showcase + Elems(admitted) else st.showcase,
          st.budget - |admitted|, st.skipped + skipped, st.selections + [Selection(g.name, admitted, skipped)])
  }

  ghost function Applied(listed: Listing, st: State, g: Group, x: Setting): State
    requires st.unchosen <= listed.Keys
  {
    Granted(st, g, ChosenBy(listed, st.unchosen, g, x), PassedAfter(listed, st, g, x))
  }

  ghost function StateAfter(listed: Listing, x: Setting, n: nat): (st: State)
    requires n <= |x.policy.groups|
    ensures st.unchosen <= Eligible(listed, x.policy, x.now) <= listed.Keys
  {
    if n == 0 then State(Eligible(listed, x.policy, x.now), map[], map[], {}, x.policy.budget, 0, [])
    else Applied(listed, StateAfter(listed, x, n - 1), x.policy.groups[n - 1], x)
  }

  /** The markets of each selection are those its group is named for. */
  ghost predicate Attributed(st: State) {
    && (forall i, t ::
        0 <= i < |st.selections| && t in st.selections[i].tickers ==>
        t in st.groupOf && st.groupOf[t] == st.selections[i].name)
    && (forall t :: t in st.groupOf ==> InSome(st.selections, t))
  }

  ghost predicate InSome(selections: seq<Selection>, t: Ticker) {
    exists i :: 0 <= i < |selections| && t in selections[i].tickers
  }

  /** Eligible markets are admitted, skipped for budget, or not chosen; budget is spent on the admitted alone. */
  ghost predicate Balanced(eligible: set<Ticker>, budget: nat, st: State) {
    && st.groupOf.Keys !! st.unchosen && st.groupOf.Keys <= eligible && st.unchosen <= eligible
    && |eligible| == |st.groupOf.Keys| + st.skipped + |st.unchosen|
    && |st.groupOf.Keys| + st.budget == budget
  }

  lemma TopOf<T>(xs: seq<T>, n: nat)
    requires Distinct(xs)
    ensures Distinct(Top(xs, n)) && |Top(xs, n)| <= n && Elems(Top(xs, n)) <= Elems(xs) && |Top(xs, n)| <= |xs|
  {
  }

  lemma Without(a: set<Ticker>, b: set<Ticker>)
    requires b <= a
    ensures |a - b| == |a| - |b|
  {
    assert a == (a - b) + b;
  }

  lemma Together(a: set<Ticker>, b: set<Ticker>)
    requires a !! b
    ensures |a + b| == |a| + |b|
  {
  }

  /** A state comes of the one before by what the group then chose. */
  ghost predicate Comes(before: State, g: Group, after: State, chosen: seq<Ticker>) {
    && Distinct(chosen) && Elems(chosen) <= before.unchosen && |Elems(chosen)| == |chosen|
    && after == Granted(before, g, chosen, after.passed)
  }

  /** States one after another, from the eligible markets on. */
  ghost predicate IsRun(eligible: set<Ticker>, p: Policy, states: seq<State>, choices: seq<seq<Ticker>>) {
    && |states| == |choices| + 1 && |choices| <= |p.groups|
    && states[0] == State(eligible, map[], map[], {}, p.budget, 0, [])
    && forall i :: 0 <= i < |choices| ==> Comes(states[i], p.groups[i], states[i + 1], choices[i])
  }

  lemma GrantedKeys(st: State, g: Group, chosen: seq<Ticker>, passed: map<Ticker, Reason>)
    requires Distinct(chosen)
    ensures var admitted := Top(chosen, st.budget);
            && Granted(st, g, chosen, passed).groupOf.Keys == st.groupOf.Keys + Elems(admitted)
            && |Elems(admitted)| == |admitted| <= |chosen| && Elems(admitted) <= Elems(chosen)
            && |admitted| <= st.budget
  {
    TopOf(chosen, st.budget);
    DistinctCount(Top(chosen, st.budget));
    NamedForAre(st.groupOf, g.name, Top(chosen, st.budget));
  }

  lemma GrantedBalances(
      eligible: set<Ticker>, budget: nat, st: State, g: Group, chosen: seq<Ticker>, passed: map<Ticker, Reason>)
    requires Balanced(eligible, budget, st) && Distinct(chosen) && Elems(chosen) <= st.unchosen
             && |Elems(chosen)| == |chosen|
    ensures Balanced(eligible, budget, Granted(st, g, chosen, passed))
  {
    var admitted := Elems(Top(chosen, st.budget));
    var next := Granted(st, g, chosen, passed);
    GrantedKeys(st, g, chosen, passed);
    Without(st.unchosen, Elems(chosen));
    Together(st.groupOf.Keys, admitted);
    assert next.unchosen == st.unchosen - Elems(chosen) && next.groupOf.Keys == st.groupOf.Keys + admitted;
  }

  lemma {:induction false} RunBalances(
      eligible: set<Ticker>, p: Policy, states: seq<State>, choices: seq<seq<Ticker>>, n: nat)
    requires IsRun(eligible, p, states, choices) && n < |states|
    ensures Balanced(eligible, p.budget, states[n])
  {
    if n == 0 {
      StartBalances(eligible, p);
    } else {
      RunBalances(eligible, p, states, choices, n - 1);
      StepBalances(eligible, p, states, choices, n - 1);
    }
  }

  lemma StepBalances(eligible: set<Ticker>, p: Policy, states: seq<State>, choices: seq<seq<Ticker>>, i: nat)
    requires IsRun(eligible, p, states, choices) && i < |choices| && Balanced(eligible, p.budget, states[i])
    ensures Balanced(eligible, p.budget, states[i + 1])
  {
    ComesBalances(eligible, p.budget, states[i], p.groups[i], states[i + 1], choices[i]);
  }

  lemma StartBalances(eligible: set<Ticker>, p: Policy)
    ensures Balanced(eligible, p.budget, State(eligible, map[], map[], {}, p.budget, 0, []))
  {
    var none: map<Ticker, Key> := map[];
    assert none.Keys == {};
  }

  lemma StepOf(eligible: set<Ticker>, p: Policy, states: seq<State>, choices: seq<seq<Ticker>>, i: nat)
    requires IsRun(eligible, p, states, choices) && i < |choices|
    ensures Comes(states[i], p.groups[i], states[i + 1], choices[i])
  {
  }

  lemma ComesBalances(eligible: set<Ticker>, budget: nat, before: State, g: Group, after: State, chosen: seq<Ticker>)
    requires Balanced(eligible, budget, before) && Comes(before, g, after, chosen)
    ensures Balanced(eligible, budget, after)
  {
    GrantedBalances(eligible, budget, before, g, chosen, after.passed);
  }

  lemma InSomeMore(selections: seq<Selection>, last: Selection, t: Ticker)
    ensures InSome(selections + [last], t) <==> InSome(selections, t) || t in last.tickers
  {
    var all := selections + [last];
    if InSome(selections, t) {
      var i :| 0 <= i < |selections| && t in selections[i].tickers;
      assert all[i] == selections[i];
    }
    if t in last.tickers { assert t in all[|selections|].tickers; }
  }

  lemma GrantedAttributes(st: State, g: Group, chosen: seq<Ticker>, passed: map<Ticker, Reason>)
    requires Attributed(st) && st.groupOf.Keys !! st.unchosen && Distinct(chosen) && Elems(chosen) <= st.unchosen
    ensures Attributed(Granted(st, g, chosen, passed))
  {
    var next := Granted(st, g, chosen, passed);
    var last := next.selections[|st.selections|];
    TopOf(chosen, st.budget);
    NamedForAre(st.groupOf, g.name, Top(chosen, st.budget));
    forall i, t | 0 <= i < |next.selections| && t in next.selections[i].tickers
      ensures t in next.groupOf && next.groupOf[t] == next.selections[i].name
    {
      if i < |st.selections| {
        assert t in st.selections[i].tickers && t in st.groupOf;
      } else {
        assert t in Elems(last.tickers);
      }
    }
    forall t | t in next.groupOf ensures InSome(next.selections, t) { InSomeMore(st.selections, last, t); }
  }

  lemma {:induction false} RunAttributes(
      eligible: set<Ticker>, p: Policy, states: seq<State>, choices: seq<seq<Ticker>>, n: nat)
    requires IsRun(eligible, p, states, choices) && n < |states|
    ensures Attributed(states[n])
  {
    if n > 0 {
      RunAttributes(eligible, p, states, choices, n - 1);
      RunBalances(eligible, p, states, choices, n - 1);
      StepOf(eligible, p, states, choices, n - 1);
      ComesAttributes(states[n - 1], p.groups[n - 1], states[n], choices[n - 1]);
    }
  }

  lemma ComesAttributes(before: State, g: Group, after: State, chosen: seq<Ticker>)
    requires Attributed(before) && before.groupOf.Keys !! before.unchosen && Comes(before, g, after, chosen)
    ensures Attributed(after)
  {
    GrantedAttributes(before, g, chosen, after.passed);
  }

  /** One selection a group, in policy order: what it chose, as far as the budget then went. */
  lemma {:induction false} RunSelects(
      eligible: set<Ticker>, p: Policy, states: seq<State>, choices: seq<seq<Ticker>>, n: nat, i: nat)
    requires IsRun(eligible, p, states, choices) && n < |states|
    ensures |states[n].selections| == n
    ensures i < n ==>
            states[n].selections[i].name == p.groups[i].name
            && states[n].selections[i].tickers == Top(choices[i], states[i].budget)
  {
    if n > 0 {
      RunSelects(eligible, p, states, choices, n - 1, i);
      StepOf(eligible, p, states, choices, n - 1);
    }
  }

  ghost function ChosenAt(listed: Listing, x: Setting, i: nat): seq<Ticker>
    requires i < |x.policy.groups|
  {
    ChosenBy(listed, StateAfter(listed, x, i).unchosen, x.policy.groups[i], x)
  }

  lemma StepComes(listed: Listing, x: Setting, n: nat)
    requires n < |x.policy.groups| && ValidSetting(x)
    ensures Comes(StateAfter(listed, x, n), x.policy.groups[n], StateAfter(listed, x, n + 1), ChosenAt(listed, x, n))
  {
    ChosenByAre(listed, StateAfter(listed, x, n).unchosen, x.policy.groups[n], x);
  }

  ghost function StatesOf(listed: Listing, x: Setting): (states: seq<State>)
    ensures |states| == |x.policy.groups| + 1
    ensures forall i {:trigger states[i]} :: 0 <= i < |states| ==> states[i] == StateAfter(listed, x, i)
  {
    seq(|x.policy.groups| + 1, i requires 0 <= i <= |x.policy.groups| => StateAfter(listed, x, i))
  }

  ghost function ChoicesOf(listed: Listing, x: Setting): (choices: seq<seq<Ticker>>)
    ensures |choices| == |x.policy.groups|
    ensures forall i {:trigger choices[i]} :: 0 <= i < |choices| ==> choices[i] == ChosenAt(listed, x, i)
  {
    seq(|x.policy.groups|, i requires 0 <= i < |x.policy.groups| => ChosenAt(listed, x, i))
  }

  /** The states of a selection are such a run. */
  lemma TheRun(listed: Listing, x: Setting)
    requires ValidSetting(x)
    ensures IsRun(Eligible(listed, x.policy, x.now), x.policy, StatesOf(listed, x), ChoicesOf(listed, x))
  {
    forall i | 0 <= i < |x.policy.groups|
      ensures Comes(StatesOf(listed, x)[i], x.policy.groups[i], StatesOf(listed, x)[i + 1], ChoicesOf(listed, x)[i])
    {
      StepComes(listed, x, i);
    }
  }

  lemma RunNamesOnce(
      eligible: set<Ticker>, p: Policy, states: seq<State>, choices: seq<seq<Ticker>>, i: nat, j: nat, t: Ticker)
    requires IsRun(eligible, p, states, choices) && i < |choices| && j < |choices|
    requires i != j ==> p.groups[i].name != p.groups[j].name
    ensures var st := states[|choices|];
            && |st.selections| == |choices|
            && (t in st.selections[i].tickers && t in st.selections[j].tickers ==> i == j)
            && (t in st.selections[i].tickers ==> t in st.groupOf && st.groupOf[t] == p.groups[i].name)
            && (t in st.groupOf ==> InSome(st.selections, t))
  {
    RunAttributes(eligible, p, states, choices, |choices|);
    RunSelects(eligible, p, states, choices, |choices|, i);
    RunSelects(eligible, p, states, choices, |choices|, j);
    NamedOnce(states[|choices|], i, j, t);
  }

  lemma NamedOnce(st: State, i: nat, j: nat, t: Ticker)
    requires Attributed(st) && i < |st.selections| && j < |st.selections|
    ensures t in st.selections[i].tickers ==> t in st.groupOf && st.groupOf[t] == st.selections[i].name
    ensures t in st.selections[i].tickers && t in st.selections[j].tickers ==>
            st.selections[i].name == st.selections[j].name
  {
  }

  /** Each admitted market is in exactly one selection, that of the group it is named for. */
  lemma OneGroupEach(listed: Listing, x: Setting, i: nat, j: nat, t: Ticker)
    requires ValidSetting(x) && i < |x.policy.groups| && j < |x.policy.groups|
    ensures var st := StateAfter(listed, x, |x.policy.groups|);
            && |st.selections| == |x.policy.groups|
            && (t in st.selections[i].tickers && t in st.selections[j].tickers ==> i == j)
            && (t in st.selections[i].tickers ==> t in st.groupOf && st.groupOf[t] == x.policy.groups[i].name)
            && (t in st.groupOf ==> InSome(st.selections, t))
  {
    TheRun(listed, x);
    assert i != j ==> x.policy.groups[Min(i, j)].name != x.policy.groups[Max(i, j)].name;
    RunNamesOnce(Eligible(listed, x.policy, x.now), x.policy, StatesOf(listed, x), ChoicesOf(listed, x), i, j, t);
  }

  /** A selection is what its group chose of what was left to it, as far as the budget then went. */
  lemma SelectionIs(listed: Listing, x: Setting, i: nat)
    requires ValidSetting(x) && i < |x.policy.groups|
    ensures var st := StateAfter(listed, x, |x.policy.groups|);
            |st.selections| == |x.policy.groups| && st.selections[i].tickers == AdmittedAt(listed, x, i)
  {
    TheRun(listed, x);
    var states, choices := StatesOf(listed, x), ChoicesOf(listed, x);
    var n := |x.policy.groups|;
    var before, chosen, last := StateAfter(listed, x, i), ChosenAt(listed, x, i), StateAfter(listed, x, n);
    assert states[i] == before && choices[i] == chosen && states[n] == last;
    SelectedInRun(Eligible(listed, x.policy, x.now), x.policy, states, choices, i, before.budget, chosen, last);
  }

  lemma SelectedInRun(
      eligible: set<Ticker>, p: Policy, states: seq<State>, choices: seq<seq<Ticker>>, i: nat, budget: nat,
      chosen: seq<Ticker>, last: State)
    requires IsRun(eligible, p, states, choices) && i < |choices|
    requires states[i].budget == budget && choices[i] == chosen && states[|choices|] == last
    ensures |last.selections| == |choices| && last.selections[i].tickers == Top(chosen, budget)
  {
    RunSelects(eligible, p, states, choices, |choices|, i);
  }

  ghost function AdmittedAt(listed: Listing, x: Setting, i: nat): seq<Ticker>
    requires i < |x.policy.groups|
  {
    Top(ChosenAt(listed, x, i), StateAfter(listed, x, i).budget)
  }

  /** What every group admits keeps its caps, as seen from the candidates no earlier group chose; a pinned group is
      the exception, since it is not applied. */
  lemma EverySelectionKeepsCaps(listed: Listing, x: Setting, i: nat)
    requires ValidSetting(x) && i < |x.policy.groups| && x.policy.groups[i].name !in x.pinned
    ensures var st := StateAfter(listed, x, |x.policy.groups|); var g := x.policy.groups[i];
            var ts := Candidates(listed, StateAfter(listed, x, i).unchosen, g, x.categories);
            |st.selections| == |x.policy.groups| && Known(listed, st.selections[i].tickers)
            && WithinCaps(listed, ts, g, x.now, st.selections[i].tickers)
  {
    var before, g := StateAfter(listed, x, i), x.policy.groups[i];
    SelectionIs(listed, x, i);
    ChosenByAre(listed, before.unchosen, g, x);
    AdmittedKeepCaps(listed, before, g, x);
  }

  lemma AdmittedKeepCaps(listed: Listing, st: State, g: Group, x: Setting)
    requires st.unchosen <= listed.Keys && ValidGroup(g) && g.name !in x.pinned
    ensures var ts, c := Candidates(listed, st.unchosen, g, x.categories),
            Top(ChosenBy(listed, st.unchosen, g, x), st.budget);
            Known(listed, c) && WithinCaps(listed, ts, g, x.now, c)
  {
    var ts, all := Candidates(listed, st.unchosen, g, x.categories), ChosenBy(listed, st.unchosen, g, x);
    var c := Top(all, st.budget);
    ChosenByAre(listed, st.unchosen, g, x);
    forall i | 0 <= i < |c| ensures c[i] in all && c[i] in listed {
      assert all[i] in all && all[i] in Elems(all);
    }
    CapsHold(listed, ts, g, x.policy.minVolume, x.now, c);
  }

  /** The budget holds over all groups, pinned ones included, and every eligible market is admitted, skipped for
      budget or not chosen. */
  lemma BudgetHolds(listed: Listing, x: Setting)
    requires ValidSetting(x)
    ensures Balanced(Eligible(listed, x.policy, x.now), x.policy.budget, StateAfter(listed, x, |x.policy.groups|))
  {
    TheRun(listed, x);
    RunBalances(Eligible(listed, x.policy, x.now), x.policy, StatesOf(listed, x), ChoicesOf(listed, x),
        |x.policy.groups|);
  }

  /** A pinned group admits the markets it is pinned to that are eligible and left to it, while the budget lasts. */
  lemma PinnedSelectionIs(listed: Listing, x: Setting, i: nat, t: Ticker)
    requires ValidSetting(x) && i < |x.policy.groups| && x.policy.groups[i].name in x.pinned
    ensures var st := StateAfter(listed, x, |x.policy.groups|); var before := StateAfter(listed, x, i);
            var open := StillOpen(x.pinned[x.policy.groups[i].name], before.unchosen);
            && |st.selections| == |x.policy.groups| && st.selections[i].tickers == Top(open, before.budget)
            && (t in open <==> t in x.pinned[x.policy.groups[i].name] && t in before.unchosen)
  {
    SelectionIs(listed, x, i);
    StillOpenAre(x.pinned[x.policy.groups[i].name], StateAfter(listed, x, i).unchosen, t);
  }

  lemma FewerOfOneEvent(listed: Listing, c: seq<Ticker>, d: seq<Ticker>, k: EventKey)
    requires Known(listed, c) && Known(listed, d) && PartOf(d, c)
    ensures |MarketsOf(listed, d, k)| <= |MarketsOf(listed, c, k)|
  {
    var own, all := MarketsOf(listed, d, k), MarketsOf(listed, c, k);
    MarketsAre(listed, d, k, Key(0));
    forall t | t in own ensures t in all {
      MarketsAre(listed, d, k, t);
      MarketsAre(listed, c, k, t);
    }
    assert Elems(own) <= Elems(all);
    Subset(Elems(own), Elems(all));
    DistinctCount(own);
    ElemsAreFew(all);
  }

  lemma FewerEvents(listed: Listing, c: seq<Ticker>, d: seq<Ticker>)
    requires Known(listed, c) && Known(listed, d) && PartOf(d, c)
    ensures EventSet(listed, d) <= EventSet(listed, c)
  {
    forall k | k in EventSet(listed, d) ensures k in EventSet(listed, c) {
      EventSetHas(listed, d, k);
      EventSetHas(listed, c, k);
      var i :| 0 <= i < |d| && EventOf(listed[d[i]]) == k;
      assert d[i] in c;
    }
  }

  /** Part of what keeps the counts keeps them. */
  lemma PartKeepsCounts(listed: Listing, g: Group, c: seq<Ticker>, d: seq<Ticker>)
    requires Known(listed, c) && Known(listed, d) && CountCaps(listed, g, c) && PartOf(d, c)
    ensures CountCaps(listed, g, d)
  {
    forall k ensures |MarketsOf(listed, d, k)| <= g.perEvent { FewerOfOneEvent(listed, c, d, k); }
    FewerEvents(listed, c, d);
    Subset(EventSet(listed, d), EventSet(listed, c));
    forall s ensures |OfOneSeries(EventSet(listed, d), s)| <= |OfOneSeries(EventSet(listed, c), s)| {
      Subset(OfOneSeries(EventSet(listed, d), s), OfOneSeries(EventSet(listed, c), s));
    }
  }

  ghost predicate SameEvents(a: Listing, b: Listing, c: seq<Ticker>) {
    forall i :: 0 <= i < |c| ==> c[i] in a && c[i] in b && EventOf(a[c[i]]) == EventOf(b[c[i]])
  }

  lemma {:induction false} SameEventsCount(a: Listing, b: Listing, c: seq<Ticker>, k: EventKey)
    requires SameEvents(a, b, c)
    ensures MarketsOf(a, c, k) == MarketsOf(b, c, k) && EventSet(a, c) == EventSet(b, c)
  {
    if c != [] { SameEventsCount(a, b, c[..|c| - 1], k); }
  }

  lemma SameEventsKeepCounts(a: Listing, b: Listing, g: Group, c: seq<Ticker>)
    requires SameEvents(a, b, c) && CountCaps(a, g, c)
    ensures CountCaps(b, g, c)
  {
    SameEventsCount(a, b, c, EventKey(Key(0), Key(0)));
    forall k ensures MarketsOf(a, c, k) == MarketsOf(b, c, k) { SameEventsCount(a, b, c, k); }
  }

  lemma OpenIsPart(pins: seq<Ticker>, unchosen: set<Ticker>, n: nat)
    ensures PartOf(Top(StillOpen(pins, unchosen), n), StillOpen(pins, unchosen))
            && PartOf(StillOpen(pins, unchosen), pins)
    ensures forall t :: t in StillOpen(pins, unchosen) ==> t in unchosen
  {
    var open := StillOpen(pins, unchosen);
    StillOpenAre(pins, unchosen, Key(0));
    forall t | t in open ensures t in unchosen && t in pins { StillOpenAre(pins, unchosen, t); }
    assert forall i :: 0 <= i < |open| ==> open[i] in open;
    assert Elems(open) <= Elems(pins);
    Subset(Elems(open), Elems(pins));
    DistinctCount(open);
    ElemsAreFew(pins);
  }

  /** A pinned group is not held to its counts. What it admits keeps them if and only if, of the pins left to it, there
      is room for each in turn as far as the budget goes. */
  lemma PinnedKeepsCountsIff(listed: Listing, x: Setting, i: nat)
    requires ValidSetting(x) && i < |x.policy.groups| && x.policy.groups[i].name in x.pinned
    ensures var g, before := x.policy.groups[i], StateAfter(listed, x, i);
            var open, st := StillOpen(x.pinned[g.name], before.unchosen), StateAfter(listed, x, |x.policy.groups|);
            && |st.selections| == |x.policy.groups| && Known(listed, open) && Known(listed, st.selections[i].tickers)
            && (CountCaps(listed, g, st.selections[i].tickers)
                <==> forall j :: 0 <= j < Min(|open|, before.budget) ==> Room(listed, g, open, j))
  {
    var g, before := x.policy.groups[i], StateAfter(listed, x, i);
    PinnedSelectionIs(listed, x, i, Key(0));
    PinsKeepCountsIff(listed, g, x.pinned[g.name], before.unchosen, before.budget);
  }

  lemma PinsKeepCountsIff(listed: Listing, g: Group, pins: seq<Ticker>, unchosen: set<Ticker>, budget: nat)
    requires unchosen <= listed.Keys
    ensures var open := StillOpen(pins, unchosen);
            && Known(listed, open) && Known(listed, Top(open, budget))
            && (CountCaps(listed, g, Top(open, budget))
                <==> forall j :: 0 <= j < Min(|open|, budget) ==> Room(listed, g, open, j))
  {
    var open, n := StillOpen(pins, unchosen), Min(|StillOpen(pins, unchosen)|, budget);
    PinsKeepCounts(listed, g, pins, unchosen, budget);
    CountsKeptIff(listed, g, open[..n]);
    forall j | 0 <= j < n
      ensures Room(listed, g, open, j) <==> Room(listed, g, open[..n], j)
    {
      RoomStays(listed, g, open, n, j);
    }
  }

  /** Nor is it held to its horizon: what it admits keeps that if and only if it has none, or of the event of each pin
      left to it, as far as the budget goes, a candidate closes within it. */
  lemma PinnedKeepsHorizonIff(listed: Listing, x: Setting, i: nat)
    requires ValidSetting(x) && i < |x.policy.groups| && x.policy.groups[i].name in x.pinned
    ensures var g, before := x.policy.groups[i], StateAfter(listed, x, i);
            var open, st := StillOpen(x.pinned[g.name], before.unchosen), StateAfter(listed, x, |x.policy.groups|);
            var ts := Candidates(listed, before.unchosen, g, x.categories);
            && |st.selections| == |x.policy.groups| && Known(listed, open) && Known(listed, st.selections[i].tickers)
            && (HorizonKept(listed, ts, g, x.now, st.selections[i].tickers)
                <==> g.maxHours.None? || forall j :: 0 <= j < Min(|open|, before.budget) ==>
                       ClosesBy(listed, ts, EventOf(listed[open[j]]), x.now + g.maxHours.value * SECONDS_PER_HOUR))
  {
    var g, before := x.policy.groups[i], StateAfter(listed, x, i);
    PinnedSelectionIs(listed, x, i, Key(0));
    PinsKeepHorizonIff(listed, g, x.pinned[g.name], before, Candidates(listed, before.unchosen, g, x.categories),
        x.now);
  }

  lemma PinsKeepHorizonIff(listed: Listing, g: Group, pins: seq<Ticker>, before: State, ts: seq<Ticker>, now: int)
    requires before.unchosen <= listed.Keys && Known(listed, ts)
    ensures var open := StillOpen(pins, before.unchosen); var c := Top(open, before.budget);
            && Known(listed, open) && Known(listed, c)
            && (HorizonKept(listed, ts, g, now, c)
                <==> g.maxHours.None? || forall j :: 0 <= j < Min(|open|, before.budget) ==>
                       ClosesBy(listed, ts, EventOf(listed[open[j]]), now + g.maxHours.value * SECONDS_PER_HOUR))
  {
    var open := StillOpen(pins, before.unchosen);
    PinsKeepCounts(listed, g, pins, before.unchosen, before.budget);
    forall j | 0 <= j < |open|
      ensures InHorizon(listed, ts, EventOf(listed[open[j]]), g, now)
              <==> g.maxHours.None?
                   || ClosesBy(listed, ts, EventOf(listed[open[j]]), now + g.maxHours.value * SECONDS_PER_HOUR)
    {
      HorizonMeans(listed, ts, EventOf(listed[open[j]]), g, now);
    }
  }

  lemma PinsKeepCounts(listed: Listing, g: Group, pins: seq<Ticker>, unchosen: set<Ticker>, budget: nat)
    requires unchosen <= listed.Keys
    ensures var open := StillOpen(pins, unchosen);
            && Known(listed, open) && Known(listed, Top(open, budget))
            && (CountCaps(listed, g, open) ==> CountCaps(listed, g, Top(open, budget)))
            && (|open| <= budget ==> Top(open, budget) == open)
  {
    var open := StillOpen(pins, unchosen);
    OpenIsPart(pins, unchosen, budget);
    assert forall i :: 0 <= i < |open| ==> open[i] in open;
    if CountCaps(listed, g, open) { PartKeepsCounts(listed, g, open, Top(open, budget)); }
  }

  /** So pinning a group again and again to what it admitted never breaks its counts: if its pins kept them in the
      listing they were admitted from and no pinned market has changed its event since, what it admits now does. */
  lemma RepinnedKeepsCounts(was: Listing, listed: Listing, x: Setting, i: nat)
    requires ValidSetting(x) && i < |x.policy.groups| && x.policy.groups[i].name in x.pinned
    requires var pins := x.pinned[x.policy.groups[i].name]; Known(was, pins) && CountCaps(was, x.policy.groups[i], pins)
    requires forall t :: t in x.pinned[x.policy.groups[i].name] && t in listed ==> EventOf(listed[t]) == EventOf(was[t])
    ensures var st := StateAfter(listed, x, |x.policy.groups|);
            |st.selections| == |x.policy.groups| && Known(listed, st.selections[i].tickers)
            && CountCaps(listed, x.policy.groups[i], st.selections[i].tickers)
  {
    var g, before := x.policy.groups[i], StateAfter(listed, x, i);
    PinnedSelectionIs(listed, x, i, Key(0));
    OpenKeepsCounts(was, listed, g, x.pinned[g.name], before.unchosen);
    PinsKeepCounts(listed, g, x.pinned[g.name], before.unchosen, before.budget);
  }

  lemma OpenKeepsCounts(was: Listing, listed: Listing, g: Group, pins: seq<Ticker>, unchosen: set<Ticker>)
    requires Known(was, pins) && CountCaps(was, g, pins) && unchosen <= listed.Keys
    requires forall t :: t in pins && t in listed ==> EventOf(listed[t]) == EventOf(was[t])
    ensures Known(listed, StillOpen(pins, unchosen)) && CountCaps(listed, g, StillOpen(pins, unchosen))
  {
    var open := StillOpen(pins, unchosen);
    OpenIsPart(pins, unchosen, 0);
    forall i | 0 <= i < |open|
      ensures open[i] in was && open[i] in listed && EventOf(was[open[i]]) == EventOf(listed[open[i]])
    {
      assert open[i] in open && open[i] in pins;
    }
    PartKeepsCounts(was, g, pins, open);
    SameEventsKeepCounts(was, listed, g, open);
  }

  /** And pinning it again keeps its horizon, if the clock has not gone back and each pin's event still shows a
      candidate that closes no later than the earliest one did. */
  lemma RepinnedKeepsHorizon(was: Listing, seen: seq<Ticker>, since: int, listed: Listing, x: Setting, i: nat)
    requires ValidSetting(x) && i < |x.policy.groups| && x.policy.groups[i].name in x.pinned && since <= x.now
    requires var g, pins := x.policy.groups[i], x.pinned[x.policy.groups[i].name];
             Known(was, seen) && Known(was, pins) && HorizonKept(was, seen, g, since, pins)
    requires var g, before := x.policy.groups[i], StateAfter(listed, x, i);
             forall t :: t in x.pinned[g.name] && t in before.unchosen ==>
               StillShows(was, seen, listed, Candidates(listed, before.unchosen, g, x.categories), t)
    ensures var g, st := x.policy.groups[i], StateAfter(listed, x, |x.policy.groups|);
            && |st.selections| == |x.policy.groups| && Known(listed, st.selections[i].tickers)
            && HorizonKept(listed, Candidates(listed, StateAfter(listed, x, i).unchosen, g, x.categories), g, x.now,
                 st.selections[i].tickers)
  {
    var g, before := x.policy.groups[i], StateAfter(listed, x, i);
    PinnedSelectionIs(listed, x, i, Key(0));
    OpenKeepsHorizon(was, seen, since, listed, Candidates(listed, before.unchosen, g, x.categories), g,
        x.pinned[g.name], before, x.now);
  }

  /** The event of the market shows one that closes no later than its earliest did. */
  ghost predicate StillShows(was: Listing, seen: seq<Ticker>, listed: Listing, ts: seq<Ticker>, t: Ticker)
    requires Known(was, seen) && Known(listed, ts)
  {
    && t in was && t in listed
    && forall limit :: ClosesBy(was, seen, EventOf(was[t]), limit) ==> ClosesBy(listed, ts, EventOf(listed[t]), limit)
  }

  lemma ClosesLater(listed: Listing, ts: seq<Ticker>, k: EventKey, limit: int, later: int)
    requires Known(listed, ts) && ClosesBy(listed, ts, k, limit) && limit <= later
    ensures ClosesBy(listed, ts, k, later)
  {
    var i :| 0 <= i < |ts| && EventOf(listed[ts[i]]) == k && listed[ts[i]].close.Some?
        && listed[ts[i]].close.value <= limit;
    assert EventOf(listed[ts[i]]) == k;
  }

  lemma OpenKeepsHorizon(
      was: Listing, seen: seq<Ticker>, since: int, listed: Listing, ts: seq<Ticker>, g: Group, pins: seq<Ticker>,
      before: State, now: int)
    requires Known(was, seen) && Known(was, pins) && HorizonKept(was, seen, g, since, pins) && since <= now
    requires before.unchosen <= listed.Keys && Known(listed, ts)
    requires forall t :: t in pins && t in before.unchosen ==> StillShows(was, seen, listed, ts, t)
    ensures var c := Top(StillOpen(pins, before.unchosen), before.budget);
            Known(listed, c) && HorizonKept(listed, ts, g, now, c)
  {
    var open := StillOpen(pins, before.unchosen);
    PinsKeepHorizonIff(listed, g, pins, before, ts, now);
    if g.maxHours.Some? {
      var span := g.maxHours.value * SECONDS_PER_HOUR;
      forall j | 0 <= j < |open| ensures ClosesBy(listed, ts, EventOf(listed[open[j]]), now + span) {
        StillOpenAre(pins, before.unchosen, open[j]);
        var i :| 0 <= i < |pins| && pins[i] == open[j];
        HorizonMeans(was, seen, EventOf(was[pins[i]]), g, since);
        ClosesLater(listed, ts, EventOf(listed[open[j]]), since + span, now + span);
      }
    }
  }

  lemma {:induction false} AllStillOpen(pins: seq<Ticker>, unchosen: set<Ticker>)
    requires Distinct(pins) && Elems(pins) <= unchosen
    ensures StillOpen(pins, unchosen) == pins
  {
    if pins != [] {
      var init, last := pins[..|pins| - 1], pins[|pins| - 1];
      assert pins == init + [last] && last in Elems(pins);
      assert Elems(init) <= Elems(pins);
      AllStillOpen(init, unchosen);
    }
  }

  /** A sole group admits the eligible markets it is pinned to as they stand, whatever its caps. */
  lemma PinsAreAdmitted(listed: Listing, x: Setting, g: Group, pins: seq<Ticker>)
    requires ValidSetting(x) && x.policy.groups == [g] && g.name in x.pinned && x.pinned[g.name] == pins
    requires Distinct(pins) && Elems(pins) <= Eligible(listed, x.policy, x.now) && |pins| <= x.policy.budget
    ensures |StateAfter(listed, x, 1).selections| == 1 && StateAfter(listed, x, 1).selections[0].tickers == pins
  {
    PinnedSelectionIs(listed, x, 0, Key(0));
    AllStillOpen(pins, Eligible(listed, x.policy, x.now));
  }

  /** So each count can be exceeded: two markets pinned to a group that may take one, one of an event, or one event. */
  lemma PinsExceedCounts(listed: Listing, x: Setting, g: Group, t: Ticker, u: Ticker)
    requires ValidSetting(x) && x.policy.groups == [g] && x.policy.budget >= 2 && g.name in x.pinned
             && x.pinned[g.name] == [t, u]
    requires t != u && {t, u} <= Eligible(listed, x.policy, x.now) && listed[t].series == listed[u].series
    requires g.maxMarkets == Some(1) || (g.perEvent == 1 && EventOf(listed[t]) == EventOf(listed[u]))
             || (g.events == 1 && EventOf(listed[t]) != EventOf(listed[u]))
    ensures var st := StateAfter(listed, x, 1);
            |st.selections| == 1 && st.selections[0].tickers == [t, u] && Known(listed, [t, u])
            && !CountCaps(listed, g, [t, u])
  {
    PinsAreAdmitted(listed, x, g, [t, u]);
    TwoMarkets(listed, t, u);
    var keys := {EventOf(listed[t]), EventOf(listed[u])};
    assert OfOneSeries(keys, listed[t].series) == keys;
  }

  lemma TwoMarkets(listed: Listing, t: Ticker, u: Ticker)
    requires t in listed && u in listed
    ensures Known(listed, [t, u]) && EventSet(listed, [t, u]) == {EventOf(listed[t]), EventOf(listed[u])}
    ensures EventOf(listed[t]) == EventOf(listed[u]) ==> |MarketsOf(listed, [t, u], EventOf(listed[t]))| == 2
  {
    var k := EventOf(listed[t]);
    MarketsSnoc(listed, [], t, k);
    MarketsSnoc(listed, [t], u, k);
    assert [] + [t] == [t] && [t] + [u] == [t, u];
  }

  /** And the horizon: a market pinned to a group is admitted though no eligible market of its event closes within
      it. */
  lemma PinsExceedHorizon(listed: Listing, x: Setting, g: Group, t: Ticker)
    requires ValidSetting(x) && x.policy.groups == [g] && x.policy.budget >= 1 && g.name in x.pinned
             && x.pinned[g.name] == [t]
    requires g.maxHours.Some? && t in Eligible(listed, x.policy, x.now)
    requires forall u ::
             u in Eligible(listed, x.policy, x.now) && EventOf(listed[u]) == EventOf(listed[t])
             && listed[u].close.Some? ==>
               listed[u].close.value > x.now + g.maxHours.value * SECONDS_PER_HOUR
    ensures var st := StateAfter(listed, x, 1);
            |st.selections| == 1 && st.selections[0].tickers == [t] && Known(listed, [t])
            && !HorizonKept(listed, Candidates(listed, Eligible(listed, x.policy, x.now), g, x.categories), g, x.now,
                 [t])
  {
    var ts, k := Candidates(listed, Eligible(listed, x.policy, x.now), g, x.categories), EventOf(listed[t]);
    PinsAreAdmitted(listed, x, g, [t]);
    HorizonMeans(listed, ts, k, g, x.now);
    forall i | 0 <= i < |ts| && EventOf(listed[ts[i]]) == k && listed[ts[i]].close.Some?
      ensures listed[ts[i]].close.value > x.now + g.maxHours.value * SECONDS_PER_HOUR
    {
      assert ts[i] in ts;
    }
    assert [t][0] == t;
  }

  /** An applied sole group with room for all admits every candidate it wants, if the budget allows. */
  lemma RoomyAdmits(listed: Listing, x: Setting, g: Group, t: Ticker)
    requires ValidSetting(x) && x.policy.groups == [g] && g.name !in x.pinned
    requires var ts := Candidates(listed, Eligible(listed, x.policy, x.now), g, x.categories);
             Roomy(g, |ts|) && |ts| <= x.policy.budget && t in ts && Wanted(listed, ts, g, x.policy.minVolume, x.now, t)
    ensures |StateAfter(listed, x, 1).selections| == 1 && t in StateAfter(listed, x, 1).selections[0].tickers
  {
    var ts := Candidates(listed, Eligible(listed, x.policy, x.now), g, x.categories);
    SelectionIs(listed, x, 0);
    AllAdmitted(listed, x, g, ts);
    RoomyChooses(listed, ts, g, x.policy.minVolume, x.now, t);
  }

  lemma AllAdmitted(listed: Listing, x: Setting, g: Group, ts: seq<Ticker>)
    requires ValidSetting(x) && x.policy.groups == [g] && g.name !in x.pinned
    requires ts == Candidates(listed, Eligible(listed, x.policy, x.now), g, x.categories) && |ts| <= x.policy.budget
    ensures AdmittedAt(listed, x, 0) == Choose(listed, ts, g, x.policy.minVolume, x.now)
  {
    assert ValidGroup(x.policy.groups[0]);
    ChosenFit(listed, ts, g, x.policy.minVolume, x.now);
  }

  lemma ChosenFit(listed: Listing, ts: seq<Ticker>, g: Group, floor: int, now: int)
    requires Known(listed, ts) && Distinct(ts) && ValidGroup(g)
    ensures |Choose(listed, ts, g, floor, now)| <= |ts|
  {
    ChosenAre(listed, ts, g, floor, now);
    FewerThan(Choose(listed, ts, g, floor, now), ts);
  }

  lemma FewerThan(c: seq<Ticker>, all: seq<Ticker>)
    requires Distinct(c) && forall i :: 0 <= i < |c| ==> c[i] in all
    ensures |c| <= |all|
  {
    assert Elems(c) <= Elems(all);
    Subset(Elems(c), Elems(all));
    DistinctCount(c);
    ElemsAreFew(all);
  }

  /** Pinned to what it admitted, a group can still leave its horizon: the market of an event that closed within it has
      closed, and the one that is left closes too late. */
  lemma RepinnedLosesHorizon(
      was: Listing, early: Market, late: Market, x: Setting, g: Group, pins: seq<Ticker>, y: Setting)
    requires ValidSetting(x) && x.policy.groups == [g] && g.name !in x.pinned && Roomy(g, 2) && x.policy.budget >= 2
    requires was == map[early.ticker := early, late.ticker := late] && early.ticker != late.ticker
    requires g.selector.BySeries? && early.series in g.selector.series && EventOf(early) == EventOf(late)
    requires Rejection(early, x.policy, x.now).None? && Rejection(late, x.policy, x.now).None?
    requires early.close.Some? && late.close.Some? && g.maxHours.Some? && early.close.value <= y.now
    requires early.close.value <= x.now + g.maxHours.value * SECONDS_PER_HOUR
             && late.close.value > y.now + g.maxHours.value * SECONDS_PER_HOUR
    requires pins == AdmittedAt(was, x, 0) && y.policy == x.policy && y.pinned == map[g.name := pins]
    ensures Known(was, pins)
            && HorizonKept(was, Candidates(was, Eligible(was, x.policy, x.now), g, x.categories), g, x.now, pins)
    ensures AdmittedAt(was, y, 0) == [late.ticker] && Known(was, [late.ticker])
    ensures !HorizonKept(was, Candidates(was, Eligible(was, y.policy, y.now), g, y.categories), g, y.now, [late.ticker])
  {
    BothAdmitted(was, early, late, x, g);
    OnlyLateIsLeft(was, early, late, x, y.now);
    AppliedKeepsHorizon(was, x, g, pins);
    LeftOpen(pins, Eligible(was, y.policy, y.now), late.ticker);
    TooLate(was, late, y, g);
  }

  lemma AppliedKeepsHorizon(listed: Listing, x: Setting, g: Group, c: seq<Ticker>)
    requires ValidSetting(x) && x.policy.groups == [g] && g.name !in x.pinned && c == AdmittedAt(listed, x, 0)
    ensures Known(listed, c)
            && HorizonKept(listed, Candidates(listed, Eligible(listed, x.policy, x.now), g, x.categories), g, x.now, c)
  {
    AdmittedKeepCaps(listed, StateAfter(listed, x, 0), g, x);
  }

  lemma BothAdmitted(was: Listing, early: Market, late: Market, x: Setting, g: Group)
    requires ValidSetting(x) && x.policy.groups == [g] && g.name !in x.pinned && Roomy(g, 2) && x.policy.budget >= 2
    requires was == map[early.ticker := early, late.ticker := late] && early.ticker != late.ticker
    requires g.selector.BySeries? && early.series in g.selector.series && EventOf(early) == EventOf(late)
    requires Rejection(early, x.policy, x.now).None? && Rejection(late, x.policy, x.now).None?
    requires early.close.Some? && g.maxHours.Some? && early.close.value <= x.now + g.maxHours.value * SECONDS_PER_HOUR
    ensures late.ticker in AdmittedAt(was, x, 0)
  {
    var ts, t := Candidates(was, Eligible(was, x.policy, x.now), g, x.categories), early.ticker;
    assert Selects(g, was[t], x.categories) && Selects(g, was[late.ticker], x.categories);
    assert Elems(ts) <= {t, late.ticker} && t in ts && late.ticker in ts;
    DistinctCount(ts);
    Subset(Elems(ts), {t, late.ticker});
    var i :| 0 <= i < |ts| && ts[i] == t;
    assert EventOf(was[ts[i]]) == EventOf(late);
    HorizonMeans(was, ts, EventOf(late), g, x.now);
    RoomyAdmits(was, x, g, late.ticker);
    SelectionIs(was, x, 0);
  }

  lemma OnlyLateIsLeft(was: Listing, early: Market, late: Market, x: Setting, later: int)
    requires was == map[early.ticker := early, late.ticker := late] && early.ticker != late.ticker
    requires Rejection(early, x.policy, x.now).None? && Rejection(late, x.policy, x.now).None?
    requires early.close.Some? && late.close.Some? && early.close.value <= later < late.close.value
    ensures Eligible(was, x.policy, later) == {late.ticker}
  {
  }

  lemma {:induction false} LeftOpen(pins: seq<Ticker>, unchosen: set<Ticker>, t: Ticker)
    requires unchosen == {t}
    ensures StillOpen(pins, unchosen) == if t in pins then [t] else []
  {
    if pins != [] {
      LeftOpen(pins[..|pins| - 1], unchosen, t);
      assert pins == pins[..|pins| - 1] + [pins[|pins| - 1]];
    }
  }

  lemma TooLate(was: Listing, late: Market, y: Setting, g: Group)
    requires Eligible(was, y.policy, y.now) == {late.ticker} && was[late.ticker] == late && g.maxHours.Some?
    requires late.close.Some? && late.close.value > y.now + g.maxHours.value * SECONDS_PER_HOUR
    ensures Known(was, [late.ticker])
            && !HorizonKept(was, Candidates(was, Eligible(was, y.policy, y.now), g, y.categories), g, y.now,
                 [late.ticker])
  {
    var ts := Candidates(was, Eligible(was, y.policy, y.now), g, y.categories);
    HorizonMeans(was, ts, EventOf(late), g, y.now);
    forall i | 0 <= i < |ts| ensures ts[i] == late.ticker { assert ts[i] in ts; }
    assert [late.ticker][0] == late.ticker;
  }

  // ------------------------------------------------------------------ the reason of every market left out

  /** A group that is applied and selects the market. */
  ghost predicate Considers(listed: Listing, x: Setting, i: nat, t: Ticker)
    requires i < |x.policy.groups| && t in listed
  {
    x.policy.groups[i].name !in x.pinned && Selects(x.policy.groups[i], listed[t], x.categories)
  }

  /** Why one group passes over a market it does not choose, if it considers it. */
  ghost function WhyAt(listed: Listing, x: Setting, i: nat, t: Ticker): Option<Reason>
    requires i < |x.policy.groups| && t in listed
  {
    var g := x.policy.groups[i];
    if !Considers(listed, x, i, t) then None
    else Some(PassedFor(listed, Candidates(listed, StateAfter(listed, x, i).unchosen, g, x.categories), g,
        x.policy.minVolume, x.now, t))
  }

  ghost function WhysOf(listed: Listing, x: Setting, t: Ticker): (whys: seq<Option<Reason>>)
    requires t in listed
    ensures |whys| == |x.policy.groups|
    ensures forall i {:trigger whys[i]} :: 0 <= i < |whys| ==> whys[i] == WhyAt(listed, x, i, t)
  {
    seq(|x.policy.groups|, i requires 0 <= i < |x.policy.groups| => WhyAt(listed, x, i, t))
  }

  /** The reason given first. */
  function FirstSaid(whys: seq<Option<Reason>>): Option<Reason> {
    if whys == [] then None else OrElse(FirstSaid(whys[..|whys| - 1]), whys[|whys| - 1])
  }

  lemma {:induction false} FirstSaidIs(whys: seq<Option<Reason>>)
    ensures FirstSaid(whys).None? <==> forall i :: 0 <= i < |whys| ==> whys[i].None?
  {
    if whys != [] { FirstSaidIs(whys[..|whys| - 1]); }
  }

  lemma {:induction false} FirstSaidAt(whys: seq<Option<Reason>>, i: nat)
    requires i < |whys| && whys[i].Some? && forall j :: 0 <= j < i ==> whys[j].None?
    ensures FirstSaid(whys) == whys[i]
  {
    var init := whys[..|whys| - 1];
    if i < |init| { FirstSaidAt(init, i); } else { FirstSaidIs(init); }
  }

  /** From one state to the next. */
  ghost predicate PassesOn(before: State, after: State, why: Option<Reason>, t: Ticker) {
    t in after.unchosen ==> t in before.unchosen && Said(after.passed, t) == OrElse(Said(before.passed, t), why)
  }

  lemma {:induction false} FirstStays(states: seq<State>, whys: seq<Option<Reason>>, n: nat, t: Ticker)
    requires |states| == |whys| + 1 && n < |states| && t !in states[0].passed && t in states[n].unchosen
    requires forall i :: 0 <= i < |whys| ==> PassesOn(states[i], states[i + 1], whys[i], t)
    ensures Said(states[n].passed, t) == FirstSaid(whys[..n])
  {
    if n > 0 {
      assert PassesOn(states[n - 1], states[n], whys[n - 1], t);
      FirstStays(states, whys, n - 1, t);
      assert whys[..n][..n - 1] == whys[..n - 1];
    }
  }

  lemma FinallySaid(listed: Listing, x: Setting, t: Ticker)
    requires ValidSetting(x) && t in listed && t in StatesOf(listed, x)[|x.policy.groups|].unchosen
    ensures Said(StatesOf(listed, x)[|x.policy.groups|].passed, t) == FirstSaid(WhysOf(listed, x, t))
  {
    AllPassOn(listed, x, t);
    StartsSilent(listed, x);
    FinallyFirst(StatesOf(listed, x), WhysOf(listed, x, t), t);
  }

  lemma StartsSilent(listed: Listing, x: Setting)
    ensures StatesOf(listed, x)[0].passed == map[]
  {
  }

  lemma FinallyFirst(states: seq<State>, whys: seq<Option<Reason>>, t: Ticker)
    requires |states| == |whys| + 1 && t !in states[0].passed && t in states[|whys|].unchosen
    requires forall i :: 0 <= i < |whys| ==> PassesOn(states[i], states[i + 1], whys[i], t)
    ensures Said(states[|whys|].passed, t) == FirstSaid(whys)
  {
    FirstStays(states, whys, |whys|, t);
    assert whys[..|whys|] == whys;
  }

  /** An eligible market no group chose has no group's reason exactly when no group that was applied selects it. */
  lemma PassedIff(listed: Listing, x: Setting, t: Ticker)
    requires ValidSetting(x) && t in listed && t in StatesOf(listed, x)[|x.policy.groups|].unchosen
    ensures t in StatesOf(listed, x)[|x.policy.groups|].passed
            <==> exists i :: 0 <= i < |x.policy.groups| && Considers(listed, x, i, t)
  {
    FinallySaid(listed, x, t);
    SomeoneSays(listed, x, t);
  }

  lemma SomeoneSays(listed: Listing, x: Setting, t: Ticker)
    requires t in listed
    ensures FirstSaid(WhysOf(listed, x, t)).Some?
            <==> exists i :: 0 <= i < |x.policy.groups| && Considers(listed, x, i, t)
  {
    var whys := WhysOf(listed, x, t);
    FirstSaidIs(whys);
    assert forall i :: 0 <= i < |whys| ==> (whys[i].Some? <==> Considers(listed, x, i, t));
  }

  /** Otherwise it has the reason of the first such group. */
  lemma FirstReasonStays(listed: Listing, x: Setting, t: Ticker, i: nat)
    requires ValidSetting(x) && t in listed && t in StatesOf(listed, x)[|x.policy.groups|].unchosen
    requires i < |x.policy.groups| && Considers(listed, x, i, t)
             && forall j :: 0 <= j < i ==> !Considers(listed, x, j, t)
    ensures Said(StatesOf(listed, x)[|x.policy.groups|].passed, t) == WhyAt(listed, x, i, t)
  {
    var whys := WhysOf(listed, x, t);
    FinallySaid(listed, x, t);
    SilentBefore(listed, x, t, i);
    FirstSaidAt(whys, i);
  }

  lemma SilentBefore(listed: Listing, x: Setting, t: Ticker, i: nat)
    requires t in listed && i < |x.policy.groups| && forall j :: 0 <= j < i ==> !Considers(listed, x, j, t)
    ensures forall j :: 0 <= j < i ==> WhysOf(listed, x, t)[j].None?
  {
  }

  lemma AllPassOn(listed: Listing, x: Setting, t: Ticker)
    requires ValidSetting(x) && t in listed
    ensures var states, whys := StatesOf(listed, x), WhysOf(listed, x, t);
            forall i :: 0 <= i < |whys| ==> PassesOn(states[i], states[i + 1], whys[i], t)
  {
    var states, whys := StatesOf(listed, x), WhysOf(listed, x, t);
    forall i | 0 <= i < |whys| ensures PassesOn(states[i], states[i + 1], whys[i], t) { PassedNext(listed, x, i, t); }
  }

  lemma PassedNext(listed: Listing, x: Setting, n: nat, t: Ticker)
    requires ValidSetting(x) && n < |x.policy.groups| && t in listed
    ensures PassesOn(StateAfter(listed, x, n), StateAfter(listed, x, n + 1), WhyAt(listed, x, n, t), t)
  {
    var st := StateAfter(listed, x, n);
    if t in Applied(listed, st, x.policy.groups[n], x).unchosen { PassesIff(listed, st, x.policy.groups[n], x, t); }
  }

  lemma PassesIff(listed: Listing, st: State, g: Group, x: Setting, t: Ticker)
    requires st.unchosen <= listed.Keys
    requires t in Applied(listed, st, g, x).unchosen
    ensures Said(PassedAfter(listed, st, g, x), t) == OrElse(Said(st.passed, t),
              if g.name !in x.pinned && Selects(g, listed[t], x.categories)
              then Some(PassedFor(listed, Candidates(listed, st.unchosen, g, x.categories), g, x.policy.minVolume,
                  x.now, t)) else None)
  {
    if g.name !in x.pinned {
      var ts := Candidates(listed, st.unchosen, g, x.categories);
      assert t in ts <==> Selects(g, listed[t], x.categories);
      RecordedSays(listed, ts, ts, Choose(listed, ts, g, x.policy.minVolume, x.now), st.passed, g, x.policy.minVolume,
          x.now, t);
    }
  }

  // ------------------------------------------------------------------ the counts

  const REASONS := {Duplicate, NotActive, Multivariate, Closed, BeyondHorizon, NoGroup,
                    EventBeyondHorizon, BelowVolume, EventNotChosen, OverEventCap, OverGroupCap, OverCap}

  function AddedTo(c: map<Reason, nat>, r: Reason, n: nat): map<Reason, nat> {
    c[r := Get(c, r) + n]
  }

  lemma AddedTotal(c: map<Reason, nat>, r: Reason, n: nat)
    ensures Total(AddedTo(c, r, n)) == Total(c) + n
  {
    TotalPut(c, r, Get(c, r) + n);
  }

  function CountRejections(
      c: map<Reason, nat>, order: seq<Ticker>, listed: Listing, p: Policy, now: int): map<Reason, nat>
    requires Known(listed, order)
  {
    if order == [] then c else
      var before, why := CountRejections(c, order[..|order| - 1], listed, p, now),
          Rejection(listed[order[|order| - 1]], p, now);
      if why.None? then before else Bumped(before, why.value)
  }

  function CountPassed(c: map<Reason, nat>, order: seq<Ticker>, passed: map<Ticker, Reason>): map<Reason, nat> {
    if order == [] then c else
      var t := order[|order| - 1];
      Bumped(CountPassed(c, order[..|order| - 1], passed), if t in passed then passed[t] else NoGroup)
  }

  /** How many of some tickers are eligible. */
  function Passing(order: seq<Ticker>, listed: Listing, p: Policy, now: int): nat
    requires Known(listed, order)
  {
    if order == [] then 0 else
      Passing(order[..|order| - 1], listed, p, now)
          + (if Rejection(listed[order[|order| - 1]], p, now).None? then 1 else 0)
  }

  lemma {:induction false} RejectionsTotal(
      c: map<Reason, nat>, order: seq<Ticker>, listed: Listing, p: Policy, now: int)
    requires Known(listed, order)
    ensures Total(CountRejections(c, order, listed, p, now)) + Passing(order, listed, p, now) == Total(c) + |order|
  {
    if order != [] {
      var init, why := order[..|order| - 1], Rejection(listed[order[|order| - 1]], p, now);
      RejectionsTotal(c, init, listed, p, now);
      if why.Some? { BumpedTotal(CountRejections(c, init, listed, p, now), why.value); }
    }
  }

  lemma {:induction false} PassingAre(order: seq<Ticker>, listed: Listing, p: Policy, now: int)
    requires Known(listed, order) && Distinct(order)
    ensures Passing(order, listed, p, now) == |Elems(order) * Eligible(listed, p, now)|
  {
    if order != [] {
      var init, last := order[..|order| - 1], order[|order| - 1];
      PassingAre(init, listed, p, now);
      assert order == init + [last] && last !in init;
      OneMoreIn(init, last, Eligible(listed, p, now));
    }
  }

  lemma OneMoreIn(init: seq<Ticker>, last: Ticker, s: set<Ticker>)
    requires last !in init
    ensures |Elems(init + [last]) * s| == |Elems(init) * s| + (if last in s then 1 else 0)
  {
    assert Elems(init + [last]) * s == if last in s then Elems(init) * s + {last} else Elems(init) * s;
  }

  lemma {:induction false} PassedTotal(c: map<Reason, nat>, order: seq<Ticker>, passed: map<Ticker, Reason>)
    ensures Total(CountPassed(c, order, passed)) == Total(c) + |order|
  {
    if order != [] {
      var t := order[|order| - 1];
      PassedTotal(c, order[..|order| - 1], passed);
      BumpedTotal(CountPassed(c, order[..|order| - 1], passed), if t in passed then passed[t] else NoGroup);
    }
  }

  datatype Decision = Decision(
    groupOf: map<Ticker, Key>, showcase: set<Ticker>, markets: seq<Market>, selections: seq<Selection>, dropped: nat,
    counts: map<Reason, nat>)

  function NoCounts(): map<Reason, nat> {
    map r | r in REASONS :: 0
  }

  ghost function FirstCounts(copies: nat, listed: Listing): map<Reason, nat>
    requires copies >= |listed.Keys|
  {
    AddedTo(NoCounts(), Duplicate, copies - |listed.Keys|)
  }

  ghost function RejectedCounts(c: map<Reason, nat>, listed: Listing, p: Policy, now: int): map<Reason, nat> {
    SortedIsKnown(listed, listed.Keys);
    CountRejections(c, Sorted(listed.Keys), listed, p, now)
  }

  ghost function GroupCounts(c: map<Reason, nat>, st: State): map<Reason, nat> {
    CountPassed(AddedTo(c, OverCap, st.skipped), Sorted(st.unchosen), st.passed)
  }

  ghost function CountsOf(copies: nat, listed: Listing, p: Policy, now: int, st: State): map<Reason, nat>
    requires copies >= |listed.Keys|
  {
    GroupCounts(RejectedCounts(FirstCounts(copies, listed), listed, p, now), st)
  }

  lemma {:induction false} CopiesAreMore(ms: seq<Market>)
    ensures |Newest(ms).Keys| <= |ms|
  {
    if ms != [] {
      CopiesAreMore(ms[..|ms| - 1]);
      var before, m := Newest(ms[..|ms| - 1]), ms[|ms| - 1];
      assert Newest(ms).Keys == before.Keys + {m.ticker};
    }
  }

  /** The admitted markets, in ticker order. */
  function MarketsIn(order: seq<Ticker>, listed: Listing, groupOf: map<Ticker, Key>): seq<Market>
    requires Known(listed, order)
  {
    if order == [] then [] else
      var t := order[|order| - 1];
      MarketsIn(order[..|order| - 1], listed, groupOf) + (if t in groupOf then [listed[t]] else [])
  }

  /** `select`. */
  ghost function Selecting(ms: seq<Market>, x: Setting): Decision {
    var listed := Newest(ms);
    var st := StateAfter(listed, x, |x.policy.groups|);
    CopiesAreMore(ms);
    Decided(listed, st, CountsOf(|ms|, listed, x.policy, x.now, st))
  }

  ghost function Decided(listed: Listing, st: State, counts: map<Reason, nat>): Decision {
    SortedIsKnown(listed, listed.Keys);
    Decision(st.groupOf, st.showcase, MarketsIn(Sorted(listed.Keys), listed, st.groupOf), st.selections,
        Get(counts, OverCap), counts)
  }

  lemma FirstTotal(copies: nat, listed: Listing)
    requires copies >= |listed.Keys|
    ensures Total(FirstCounts(copies, listed)) == copies - |listed.Keys|
  {
    NothingCounted();
    AddedTotal(NoCounts(), Duplicate, copies - |listed.Keys|);
  }

  lemma NothingCounted()
    ensures Total(NoCounts()) == 0
  {
    TotalZeros(NoCounts());
  }

  lemma RejectedTotal(c: map<Reason, nat>, listed: Listing, p: Policy, now: int)
    ensures Total(RejectedCounts(c, listed, p, now)) + |Eligible(listed, p, now)| == Total(c) + |listed.Keys|
  {
    var order := Sorted(listed.Keys);
    SortedIsKnown(listed, listed.Keys);
    RejectionsTotal(c, order, listed, p, now);
    PassingAre(order, listed, p, now);
    assert Elems(order) * Eligible(listed, p, now) == Eligible(listed, p, now);
  }

  lemma GroupTotal(c: map<Reason, nat>, st: State)
    ensures Total(GroupCounts(c, st)) == Total(c) + st.skipped + |st.unchosen|
  {
    AddedTotal(c, OverCap, st.skipped);
    PassedTotal(AddedTo(c, OverCap, st.skipped), Sorted(st.unchosen), st.passed);
  }

  lemma CountsAddUp(copies: nat, listed: Listing, p: Policy, now: int, st: State)
    requires copies >= |listed.Keys|
    ensures Total(CountsOf(copies, listed, p, now, st)) + |Eligible(listed, p, now)| ==
            copies + st.skipped + |st.unchosen|
  {
    FirstTotal(copies, listed);
    RejectedTotal(FirstCounts(copies, listed), listed, p, now);
    GroupTotal(RejectedCounts(FirstCounts(copies, listed), listed, p, now), st);
  }

  /** Every market handed in is accounted for: the reason counts and the admitted markets add up to the listing. */
  lemma EveryMarketIsAccounted(ms: seq<Market>, x: Setting)
    requires ValidSetting(x)
    ensures Total(Selecting(ms, x).counts) + |Selecting(ms, x).groupOf.Keys| == |ms|
  {
    CopiesAreMore(ms);
    CountsAddUp(|ms|, Newest(ms), x.policy, x.now, StateAfter(Newest(ms), x, |x.policy.groups|));
    BudgetHolds(Newest(ms), x);
  }

  // ------------------------------------------------------------------ each reason's count

  function RejectedFor(ts: set<Ticker>, listed: Listing, p: Policy, now: int, r: Reason): set<Ticker>
    requires ts <= listed.Keys
  {
    set t | t in ts && Rejection(listed[t], p, now) == Some(r)
  }

  function LeftFor(ts: set<Ticker>, passed: map<Ticker, Reason>, r: Reason): set<Ticker> {
    set t | t in ts && OrElse(Said(passed, t), Some(NoGroup)) == Some(r)
  }

  lemma BumpedGet(c: map<Reason, nat>, k: Reason, r: Reason)
    ensures Get(Bumped(c, k), r) == Get(c, r) + if k == r then 1 else 0
  {
  }

  lemma OneMoreRejected(ts: set<Ticker>, last: Ticker, listed: Listing, p: Policy, now: int, r: Reason)
    requires ts + {last} <= listed.Keys && last !in ts
    ensures |RejectedFor(ts + {last}, listed, p, now, r)| ==
            |RejectedFor(ts, listed, p, now, r)| + if Rejection(listed[last], p, now) == Some(r) then 1 else 0
  {
    var before := RejectedFor(ts, listed, p, now, r);
    assert RejectedFor(ts + {last}, listed, p, now, r) ==
           if Rejection(listed[last], p, now) == Some(r) then before + {last} else before;
  }

  lemma OneMoreLeft(ts: set<Ticker>, last: Ticker, passed: map<Ticker, Reason>, r: Reason)
    requires last !in ts
    ensures |LeftFor(ts + {last}, passed, r)| ==
            |LeftFor(ts, passed, r)| + if OrElse(Said(passed, last), Some(NoGroup)) == Some(r) then 1 else 0
  {
    var before := LeftFor(ts, passed, r);
    assert LeftFor(ts + {last}, passed, r) ==
           if OrElse(Said(passed, last), Some(NoGroup)) == Some(r) then before + {last} else before;
  }

  lemma LastOf(order: seq<Ticker>)
    requires Distinct(order) && order != []
    ensures var init, last := order[..|order| - 1], order[|order| - 1];
            last !in init && Distinct(init) && Elems(order) == Elems(init) + {last}
  {
    assert order == order[..|order| - 1] + [order[|order| - 1]];
  }

  lemma {:induction false} RejectionsCount(
      c: map<Reason, nat>, order: seq<Ticker>, listed: Listing, p: Policy, now: int, r: Reason)
    requires Known(listed, order) && Distinct(order) && Elems(order) <= listed.Keys
    ensures Get(CountRejections(c, order, listed, p, now), r) ==
            Get(c, r) + |RejectedFor(Elems(order), listed, p, now, r)|
  {
    if order == [] {
      assert RejectedFor(Elems(order), listed, p, now, r) == {};
    } else {
      var init, last := order[..|order| - 1], order[|order| - 1];
      LastOf(order);
      RejectionsCount(c, init, listed, p, now, r);
      OneMoreRejected(Elems(init), last, listed, p, now, r);
      var why := Rejection(listed[last], p, now);
      if why.Some? { BumpedGet(CountRejections(c, init, listed, p, now), why.value, r); }
    }
  }

  lemma {:induction false} PassedCount(c: map<Reason, nat>, order: seq<Ticker>, passed: map<Ticker, Reason>, r: Reason)
    requires Distinct(order)
    ensures Get(CountPassed(c, order, passed), r) == Get(c, r) + |LeftFor(Elems(order), passed, r)|
  {
    if order == [] {
      assert LeftFor(Elems(order), passed, r) == {};
    } else {
      var init, last := order[..|order| - 1], order[|order| - 1];
      LastOf(order);
      PassedCount(c, init, passed, r);
      OneMoreLeft(Elems(init), last, passed, r);
      BumpedGet(CountPassed(c, init, passed), if last in passed then passed[last] else NoGroup, r);
    }
  }

  lemma AddedGet(c: map<Reason, nat>, k: Reason, n: nat, r: Reason)
    ensures Get(AddedTo(c, k, n), r) == Get(c, r) + if k == r then n else 0
  {
  }

  lemma NothingCountedOf(r: Reason)
    ensures Get(NoCounts(), r) == 0
  {
  }

  lemma RejectedCountIs(c: map<Reason, nat>, listed: Listing, p: Policy, now: int, r: Reason)
    ensures Get(RejectedCounts(c, listed, p, now), r) == Get(c, r) + |RejectedFor(listed.Keys, listed, p, now, r)|
  {
    SortedIsKnown(listed, listed.Keys);
    assert Elems(Sorted(listed.Keys)) == listed.Keys;
    RejectionsCount(c, Sorted(listed.Keys), listed, p, now, r);
  }

  lemma GroupCountIs(c: map<Reason, nat>, st: State, r: Reason)
    ensures Get(GroupCounts(c, st), r) ==
            Get(c, r) + (if r == OverCap then st.skipped else 0) + |LeftFor(st.unchosen, st.passed, r)|
  {
    assert Elems(Sorted(st.unchosen)) == st.unchosen;
    PassedCount(AddedTo(c, OverCap, st.skipped), Sorted(st.unchosen), st.passed, r);
    AddedGet(c, OverCap, st.skipped, r);
  }

  /** Each reason's count is the number of markets it is the reason of: spare copies, markets the filters reject for
      it, markets skipped for budget, and eligible markets no group chose and the first group to consider them passed
      over for it. */
  lemma CountIs(ms: seq<Market>, x: Setting, r: Reason)
    requires ValidSetting(x)
    ensures var listed := Newest(ms); var st := StateAfter(listed, x, |x.policy.groups|);
            Get(Selecting(ms, x).counts, r)
              == (if r == Duplicate then |ms| - |listed.Keys| else 0)
                  + |RejectedFor(listed.Keys, listed, x.policy, x.now, r)|
                 + (if r == OverCap then st.skipped else 0) + |LeftFor(st.unchosen, st.passed, r)|
  {
    var listed := Newest(ms);
    var st := StateAfter(listed, x, |x.policy.groups|);
    CopiesAreMore(ms);
    NothingCountedOf(r);
    AddedGet(NoCounts(), Duplicate, |ms| - |listed.Keys|, r);
    RejectedCountIs(FirstCounts(|ms|, listed), listed, x.policy, x.now, r);
    GroupCountIs(RejectedCounts(FirstCounts(|ms|, listed), listed, x.policy, x.now), st, r);
  }

  /** The decision does not depend on the order the markets arrive in, unless freshest copies of one ticker are tied. */
  lemma SelectIgnoresOrder(ms: seq<Market>, again: seq<Market>, x: Setting)
    requires multiset(again) == multiset(ms) && !OrderShows(ms)
    ensures Selecting(again, x) == Selecting(ms, x)
  {
    assert forall m :: m in ms <==> m in multiset(ms);
    assert forall m :: m in again <==> m in multiset(again);
    NewestIgnoresOrder(ms, again);
    assert |again| == |multiset(again)| && |ms| == |multiset(ms)|;
  }

  lemma FirstIsKept(a: Market, b: Market)
    requires a.ticker == b.ticker && !Fresher(b, a)
    ensures Newest([a, b]) == map[a.ticker := a]
  {
    assert [a, b][..1] == [a] && [a][..0] == [];
    assert Newest([a]) == map[a.ticker := a];
  }

  // ------------------------------------------------------------------ copies no choice tells apart

  predicate Threshold(m: Market) {
    m.strike.Some? && m.strike.value in THRESHOLDS
  }

  /** Copies that differ at most in a strike type that is no threshold. */
  predicate Alike(a: Market, b: Market) {
    a.(strike := None) == b.(strike := None) && Threshold(a) == Threshold(b)
  }

  ghost predicate AlikeOn(a: Listing, b: Listing, ts: seq<Ticker>) {
    forall i :: 0 <= i < |ts| ==> ts[i] in a && ts[i] in b && Alike(a[ts[i]], b[ts[i]])
  }

  lemma AlikeMarkets(a: Listing, b: Listing, ts: seq<Ticker>, k: EventKey)
    requires AlikeOn(a, b, ts)
    ensures Known(a, ts) && Known(b, ts) && MarketsOf(a, ts, k) == MarketsOf(b, ts, k)
            && AlikeOn(a, b, MarketsOf(a, ts, k))
  {
    SameEventsCount(a, b, ts, k);
    var own := MarketsOf(a, ts, k);
    forall i | 0 <= i < |own| ensures own[i] in a && own[i] in b && Alike(a[own[i]], b[own[i]]) {
      MarketsAre(a, ts, k, own[i]);
      assert own[i] in ts;
    }
  }

  lemma {:induction false} AlikeSums(a: Listing, b: Listing, ts: seq<Ticker>)
    requires AlikeOn(a, b, ts)
    ensures Known(a, ts) && Known(b, ts) && EventVolume(a, ts) == EventVolume(b, ts)
            && EarliestClose(a, ts) == EarliestClose(b, ts)
    ensures EventsOf(a, ts) == EventsOf(b, ts)
  {
    if ts != [] {
      AlikeSums(a, b, ts[..|ts| - 1]);
      assert Alike(a[ts[|ts| - 1]], b[ts[|ts| - 1]]);
    }
  }

  /** Two keys that agree on some things sort them the same way. */
  ghost predicate AgreeOn<T>(xs: seq<T>, f: T -> seq<int>, h: T -> seq<int>) {
    forall i :: 0 <= i < |xs| ==> f(xs[i]) == h(xs[i])
  }

  lemma {:induction false} PlacedAgrees<T>(x: T, xs: seq<T>, f: T -> seq<int>, h: T -> seq<int>)
    requires AgreeOn(xs, f, h) && f(x) == h(x)
    ensures Placed(x, xs, f) == Placed(x, xs, h)
  {
    if xs != [] {
      assert f(xs[|xs| - 1]) == h(xs[|xs| - 1]);
      PlacedAgrees(x, xs[..|xs| - 1], f, h);
    }
  }

  lemma {:induction false} SortAgrees<T>(xs: seq<T>, f: T -> seq<int>, h: T -> seq<int>)
    requires AgreeOn(xs, f, h)
    ensures SortBy(xs, f) == SortBy(xs, h)
  {
    if xs != [] {
      var init, last := xs[..|xs| - 1], xs[|xs| - 1];
      SortAgrees(init, f, h);
      var r := SortBy(init, f);
      forall i | 0 <= i < |r| ensures f(r[i]) == h(r[i]) {
        SortHolds(init, f, r[i]);
        var j :| 0 <= j < |init| && init[j] == r[i];
        assert f(xs[j]) == h(xs[j]);
      }
      PlacedAgrees(last, r, f, h);
    }
  }

  lemma AlikeTotals(a: Listing, b: Listing, ts: seq<Ticker>, k: EventKey)
    requires AlikeOn(a, b, ts)
    ensures Known(a, ts) && Known(b, ts) && Known(a, MarketsOf(a, ts, k)) && Known(b, MarketsOf(b, ts, k))
    ensures EventVolume(a, MarketsOf(a, ts, k)) == EventVolume(b, MarketsOf(b, ts, k))
    ensures EarliestClose(a, MarketsOf(a, ts, k)) == EarliestClose(b, MarketsOf(b, ts, k))
  {
    AlikeMarkets(a, b, ts, k);
    AlikeSums(a, b, MarketsOf(a, ts, k));
  }

  lemma AlikeEvent(a: Listing, b: Listing, ts: seq<Ticker>, k: EventKey, g: Group, floor: int, now: int)
    requires AlikeOn(a, b, ts)
    ensures Known(a, ts) && Known(b, ts) && InHorizon(a, ts, k, g, now) == InHorizon(b, ts, k, g, now)
            && Loud(a, ts, k, floor) == Loud(b, ts, k, floor)
  {
    AlikeTotals(a, b, ts, k);
  }

  lemma AlikeNearestKey(a: Listing, b: Listing, ts: seq<Ticker>, k: EventKey)
    requires AlikeOn(a, b, ts)
    ensures Known(a, ts) && Known(b, ts) && NearestKey(a, ts)(k) == NearestKey(b, ts)(k)
  {
    AlikeTotals(a, b, ts, k);
  }

  lemma AlikeBusiestKey(a: Listing, b: Listing, ts: seq<Ticker>, k: EventKey)
    requires AlikeOn(a, b, ts)
    ensures Known(a, ts) && Known(b, ts) && BusiestKey(a, ts)(k) == BusiestKey(b, ts)(k)
  {
    AlikeTotals(a, b, ts, k);
  }

  lemma {:induction false} AlikeWithin(
      a: Listing, b: Listing, ts: seq<Ticker>, keys: seq<EventKey>, g: Group, floor: int, now: int)
    requires AlikeOn(a, b, ts)
    ensures Known(a, ts) && Known(b, ts) && WithinHorizon(a, ts, keys, g, now) == WithinHorizon(b, ts, keys, g, now)
    ensures LoudOnes(a, ts, keys, floor) == LoudOnes(b, ts, keys, floor)
  {
    if keys != [] {
      AlikeWithin(a, b, ts, keys[..|keys| - 1], g, floor, now);
      AlikeEvent(a, b, ts, keys[|keys| - 1], g, floor, now);
    }
  }

  lemma AlikeKeys(a: Listing, b: Listing, ts: seq<Ticker>, keys: seq<EventKey>)
    requires AlikeOn(a, b, ts)
    ensures Known(a, ts) && Known(b, ts)
    ensures SortBy(keys, NearestKey(a, ts)) == SortBy(keys, NearestKey(b, ts))
            && SortBy(keys, BusiestKey(a, ts)) == SortBy(keys, BusiestKey(b, ts))
  {
    forall i | 0 <= i < |keys|
      ensures NearestKey(a, ts)(keys[i]) == NearestKey(b, ts)(keys[i])
              && BusiestKey(a, ts)(keys[i]) == BusiestKey(b, ts)(keys[i])
    {
      AlikeNearestKey(a, b, ts, keys[i]);
      AlikeBusiestKey(a, b, ts, keys[i]);
    }
    SortAgrees(keys, NearestKey(a, ts), NearestKey(b, ts));
    SortAgrees(keys, BusiestKey(a, ts), BusiestKey(b, ts));
  }

  lemma {:induction false} AlikeNearest(
      a: Listing, b: Listing, ts: seq<Ticker>, keys: seq<EventKey>, series: seq<Key>, events: nat)
    requires AlikeOn(a, b, ts)
    ensures Known(a, ts) && Known(b, ts)
            && NearestOfEach(a, ts, keys, series, events) == NearestOfEach(b, ts, keys, series, events)
  {
    if series != [] {
      AlikeNearest(a, b, ts, keys, series[..|series| - 1], events);
      AlikeKeys(a, b, ts, OfSeries(keys, series[|series| - 1]));
    }
  }

  lemma AlikeChosenEvents(a: Listing, b: Listing, ts: seq<Ticker>, g: Group, floor: int, now: int)
    requires AlikeOn(a, b, ts)
    ensures Known(a, ts) && Known(b, ts) && ChosenEvents(a, ts, g, floor, now) == ChosenEvents(b, ts, g, floor, now)
  {
    AlikeSums(a, b, ts);
    var keys := EventsOf(a, ts);
    AlikeWithin(a, b, ts, keys, g, floor, now);
    var within := WithinHorizon(a, ts, keys, g, now);
    match g.selector
    case BySeries(series) => AlikeNearest(a, b, ts, within, series, g.events);
    case ByCategory(_) =>
      AlikeWithin(a, b, ts, within, g, floor, now);
      AlikeKeys(a, b, ts, LoudOnes(a, ts, within, floor));
  }

  lemma AlikeThresholds(a: Listing, b: Listing, ts: seq<Ticker>)
    requires AlikeOn(a, b, ts)
    ensures Known(a, ts) && Known(b, ts) && AllThresholds(a, ts) == AllThresholds(b, ts)
  {
    assert forall i :: 0 <= i < |ts| ==> Threshold(a[ts[i]]) == Threshold(b[ts[i]]);
    assert AllThresholds(a, ts) == forall i :: 0 <= i < |ts| ==> Threshold(a[ts[i]]);
    assert AllThresholds(b, ts) == forall i :: 0 <= i < |ts| ==> Threshold(b[ts[i]]);
  }

  lemma AlikeTaken(a: Listing, b: Listing, ts: seq<Ticker>, g: Group, k: EventKey)
    requires AlikeOn(a, b, ts)
    ensures Known(a, ts) && Known(b, ts) && TakenOf(a, ts, g, k) == TakenOf(b, ts, g, k)
  {
    AlikeMarkets(a, b, ts, k);
    var own := MarketsOf(a, ts, k);
    AlikeThresholds(a, b, own);
    forall i | 0 <= i < |own|
      ensures RankIn(a, ts, g, k)(own[i]) == RankIn(b, ts, g, k)(own[i])
    {
      AlikeRank(a[own[i]], b[own[i]], g.nearPrice, AllThresholds(a, own));
    }
    SortAgrees(own, RankIn(a, ts, g, k), RankIn(b, ts, g, k));
  }

  lemma AlikeRank(m: Market, n: Market, nearPrice: bool, thresholds: bool)
    requires Alike(m, n)
    ensures MarketRank(m, nearPrice, thresholds) == MarketRank(n, nearPrice, thresholds)
  {
    assert m.ticker == m.(strike := None).ticker && m.volume == m.(strike := None).volume
           && m.close == m.(strike := None).close;
    assert YesMid(m) == YesMid(m.(strike := None)) && YesMid(n) == YesMid(n.(strike := None));
  }

  lemma {:induction false} AlikeTakenOfEach(a: Listing, b: Listing, ts: seq<Ticker>, g: Group, keys: seq<EventKey>)
    requires AlikeOn(a, b, ts)
    ensures Known(a, ts) && Known(b, ts) && TakenOfEach(a, ts, g, keys) == TakenOfEach(b, ts, g, keys)
  {
    if keys != [] {
      AlikeTakenOfEach(a, b, ts, g, keys[..|keys| - 1]);
      AlikeTaken(a, b, ts, g, keys[|keys| - 1]);
    }
  }

  lemma AlikeChoose(a: Listing, b: Listing, ts: seq<Ticker>, g: Group, floor: int, now: int)
    requires AlikeOn(a, b, ts)
    ensures Known(a, ts) && Known(b, ts) && Choose(a, ts, g, floor, now) == Choose(b, ts, g, floor, now)
  {
    AlikeChosenEvents(a, b, ts, g, floor, now);
    AlikeTakenOfEach(a, b, ts, g, ChosenEvents(a, ts, g, floor, now));
  }

  lemma AlikePassedFor(a: Listing, b: Listing, ts: seq<Ticker>, g: Group, floor: int, now: int, t: Ticker)
    requires AlikeOn(a, b, ts) && t in ts
    ensures Known(a, ts) && Known(b, ts) && t in a && t in b
            && PassedFor(a, ts, g, floor, now, t) == PassedFor(b, ts, g, floor, now, t)
  {
    var i :| 0 <= i < |ts| && ts[i] == t;
    assert Alike(a[ts[i]], b[ts[i]]);
    AlikeEvent(a, b, ts, EventOf(a[t]), g, floor, now);
    AlikeChosenEvents(a, b, ts, g, floor, now);
    AlikeTaken(a, b, ts, g, EventOf(a[t]));
  }

  lemma {:induction false} AlikeRecorded(
      a: Listing, b: Listing, ts: seq<Ticker>, n: nat, chosen: seq<Ticker>, passed: map<Ticker, Reason>, g: Group,
      floor: int, now: int)
    requires AlikeOn(a, b, ts) && n <= |ts|
    ensures Known(a, ts) && Known(b, ts)
            && Recorded(a, ts, ts[..n], chosen, passed, g, floor, now) ==
                 Recorded(b, ts, ts[..n], chosen, passed, g, floor, now)
  {
    if n > 0 {
      AlikeRecorded(a, b, ts, n - 1, chosen, passed, g, floor, now);
      AlikeRecordedNext(a, b, ts, n - 1, chosen, passed, g, floor, now,
          Recorded(a, ts, ts[..n - 1], chosen, passed, g, floor, now));
    }
  }

  lemma AlikeRecordedNext(
      a: Listing, b: Listing, ts: seq<Ticker>, i: nat, chosen: seq<Ticker>, passed: map<Ticker, Reason>, g: Group,
      floor: int, now: int, before: map<Ticker, Reason>)
    requires AlikeOn(a, b, ts) && i < |ts| && Known(a, ts) && Known(b, ts)
    requires before == Recorded(a, ts, ts[..i], chosen, passed, g, floor, now) ==
             Recorded(b, ts, ts[..i], chosen, passed, g, floor, now)
    ensures Recorded(a, ts, ts[..i + 1], chosen, passed, g, floor, now) ==
            Recorded(b, ts, ts[..i + 1], chosen, passed, g, floor, now)
  {
    AlikePassedFor(a, b, ts, g, floor, now, ts[i]);
    RecordedNext(a, ts, i, chosen, passed, g, floor, now);
    RecordedNext(b, ts, i, chosen, passed, g, floor, now);
  }

  lemma {:induction false} AlikeSelected(order: seq<Ticker>, a: Listing, b: Listing, g: Group, categories: Categories)
    requires AlikeOn(a, b, order)
    ensures Known(a, order) && Known(b, order) && Selected(order, a, g, categories) == Selected(order, b, g, categories)
  {
    if order != [] {
      AlikeSelected(order[..|order| - 1], a, b, g, categories);
      assert Alike(a[order[|order| - 1]], b[order[|order| - 1]]);
    }
  }

  /** Listings of the same tickers whose copies the filters treat alike, and of what passes them no choice depends. */
  ghost predicate AlikeListings(a: Listing, b: Listing, p: Policy, now: int) {
    && a.Keys == b.Keys
    && forall t :: t in a ==>
         && Rejection(a[t], p, now) == Rejection(b[t], p, now)
         && (Rejection(a[t], p, now).None? ==> Alike(a[t], b[t]))
  }

  lemma AlikeCandidates(a: Listing, b: Listing, unchosen: set<Ticker>, g: Group, x: Setting)
    requires AlikeListings(a, b, x.policy, x.now) && unchosen <= Eligible(a, x.policy, x.now)
    ensures unchosen <= a.Keys && unchosen <= b.Keys
    ensures Candidates(a, unchosen, g, x.categories) == Candidates(b, unchosen, g, x.categories)
            && AlikeOn(a, b, Candidates(a, unchosen, g, x.categories))
  {
    var order, ts := Sorted(unchosen), Candidates(a, unchosen, g, x.categories);
    forall i | 0 <= i < |order|
      ensures order[i] in a && order[i] in b && Alike(a[order[i]], b[order[i]])
    {
      assert order[i] in order;
    }
    AlikeSelected(order, a, b, g, x.categories);
    forall i | 0 <= i < |ts| ensures ts[i] in a && ts[i] in b && Alike(a[ts[i]], b[ts[i]]) { assert ts[i] in ts; }
  }

  lemma AlikeGroup(a: Listing, b: Listing, st: State, g: Group, x: Setting)
    requires AlikeListings(a, b, x.policy, x.now) && st.unchosen <= Eligible(a, x.policy, x.now)
    ensures st.unchosen <= a.Keys && st.unchosen <= b.Keys
    ensures ChosenBy(a, st.unchosen, g, x) == ChosenBy(b, st.unchosen, g, x)
            && PassedAfter(a, st, g, x) == PassedAfter(b, st, g, x)
  {
    if g.name !in x.pinned {
      var ts := Candidates(a, st.unchosen, g, x.categories);
      AlikeCandidates(a, b, st.unchosen, g, x);
      AlikeChoose(a, b, ts, g, x.policy.minVolume, x.now);
      AlikeRecorded(a, b, ts, |ts|, Choose(a, ts, g, x.policy.minVolume, x.now), st.passed, g, x.policy.minVolume,
          x.now);
      assert ts[..|ts|] == ts;
    }
  }

  lemma AlikeApplied(a: Listing, b: Listing, st: State, g: Group, x: Setting, after: State)
    requires AlikeListings(a, b, x.policy, x.now) && st.unchosen <= Eligible(a, x.policy, x.now)
    requires st.unchosen <= b.Keys && after == Applied(b, st, g, x)
    ensures st.unchosen <= a.Keys && after == Applied(a, st, g, x)
  {
    AlikeGroup(a, b, st, g, x);
  }

  lemma {:induction false} SameThroughout(a: seq<State>, b: seq<State>, n: nat)
    requires n < |a| == |b| && a[0] == b[0]
    requires forall i, j :: 0 <= i && j == i + 1 < |a| && a[i] == b[i] ==> a[j] == b[j]
    ensures a[n] == b[n]
  {
    if n > 0 {
      SameThroughout(a, b, n - 1);
      assert a[n - 1] == b[n - 1];
    }
  }

  lemma AlikeStates(a: Listing, b: Listing, x: Setting)
    requires AlikeListings(a, b, x.policy, x.now)
    ensures StatesOf(a, x)[|x.policy.groups|] == StatesOf(b, x)[|x.policy.groups|]
  {
    var u, v := StatesOf(a, x), StatesOf(b, x);
    AlikeEligible(a, b, x.policy, x.now);
    assert u[0] == v[0];
    forall i, j | 0 <= i && j == i + 1 < |u| && u[i] == v[i] ensures u[j] == v[j] { AlikeNext(a, b, x, j, u[i], v[j]); }
    SameThroughout(u, v, |x.policy.groups|);
  }

  lemma AlikeNext(a: Listing, b: Listing, x: Setting, n: nat, st: State, after: State)
    requires AlikeListings(a, b, x.policy, x.now) && 0 < n <= |x.policy.groups|
    requires st == StateAfter(a, x, n - 1) == StateAfter(b, x, n - 1) && after == StateAfter(b, x, n)
    ensures after == StateAfter(a, x, n)
  {
    NextState(b, x, n, st);
    AlikeApplied(a, b, st, x.policy.groups[n - 1], x, after);
    NextState(a, x, n, st);
  }

  lemma AlikeEligible(a: Listing, b: Listing, p: Policy, now: int)
    requires AlikeListings(a, b, p, now)
    ensures Eligible(a, p, now) == Eligible(b, p, now)
  {
  }

  lemma NextState(listed: Listing, x: Setting, n: nat, st: State)
    requires 0 < n <= |x.policy.groups| && st == StateAfter(listed, x, n - 1)
    ensures StateAfter(listed, x, n) == Applied(listed, st, x.policy.groups[n - 1], x)
  {
  }

  lemma {:induction false} AlikeRejections(
      c: map<Reason, nat>, order: seq<Ticker>, a: Listing, b: Listing, p: Policy, now: int)
    requires AlikeListings(a, b, p, now) && Known(a, order)
    ensures Known(b, order) && CountRejections(c, order, a, p, now) == CountRejections(c, order, b, p, now)
  {
    if order != [] { AlikeRejections(c, order[..|order| - 1], a, b, p, now); }
  }

  lemma AlikeCounts(copies: nat, a: Listing, b: Listing, p: Policy, now: int, st: State)
    requires AlikeListings(a, b, p, now) && copies >= |a.Keys|
    ensures CountsOf(copies, a, p, now, st) == CountsOf(copies, b, p, now, st)
  {
    SortedIsKnown(a, a.Keys);
    AlikeRejections(FirstCounts(copies, a), Sorted(a.Keys), a, b, p, now);
  }

  // ------------------------------------------------------------------ when the order shows in the decision

  /** The decision but for which copies of the admitted markets it carries. */
  function Outcome(d: Decision): Decision {
    d.(markets := [])
  }

  /** Two freshest copies of an open market, one with no close time and one that has closed. */
  ghost predicate CloseTie(ms: seq<Market>, p: Policy, a: Market, b: Market) {
    && Freshest(ms, a) && Freshest(ms, b) && Tied(a, b)
    && a.close.None? && b.close.Some? && a.status == ACTIVE && !(p.excludeMve && a.mve)
  }

  ghost predicate HasCloseTie(ms: seq<Market>, p: Policy) {
    exists a, b :: CloseTie(ms, p, a, b)
  }

  lemma TiedAreAlike(ms: seq<Market>, x: Setting, a: Market, b: Market)
    requires Freshest(ms, a) && Freshest(ms, b) && a.ticker == b.ticker && !HasCloseTie(ms, x.policy)
    ensures Rejection(a, x.policy, x.now) == Rejection(b, x.policy, x.now)
            && (Rejection(a, x.policy, x.now).None? ==> Alike(a, b))
  {
    if a != b {
      TwoFreshest(ms, a, b);
      TiedMeans(a, b);
      TiedMeans(b, a);
      assert !CloseTie(ms, x.policy, a, b) && !CloseTie(ms, x.policy, b, a);
      var c, d := a.(close := None, strike := None), b.(close := None, strike := None);
      assert c.status == a.status && d.status == b.status && c.mve == a.mve && d.mve == b.mve;
    }
  }

  lemma SameMembers(ms: seq<Market>, again: seq<Market>)
    requires multiset(again) == multiset(ms)
    ensures |again| == |ms| && forall m :: m in ms <==> m in again
  {
    assert forall m :: m in ms <==> m in multiset(ms);
    assert forall m :: m in again <==> m in multiset(again);
    assert |again| == |multiset(again)| && |ms| == |multiset(ms)|;
  }

  lemma OrdersAreAlike(ms: seq<Market>, again: seq<Market>, x: Setting)
    requires multiset(again) == multiset(ms) && !HasCloseTie(ms, x.policy)
    ensures AlikeListings(Newest(again), Newest(ms), x.policy, x.now)
  {
    var a, b := Newest(again), Newest(ms);
    SameMembers(ms, again);
    forall t ensures t in a <==> t in b { SameCopies(ms, again, t); }
    forall t | t in a
      ensures Rejection(a[t], x.policy, x.now) == Rejection(b[t], x.policy, x.now)
              && (Rejection(a[t], x.policy, x.now).None? ==> Alike(a[t], b[t]))
    {
      SameCopies(ms, again, t);
      TiedAreAlike(ms, x, a[t], b[t]);
    }
  }

  lemma SameCopies(ms: seq<Market>, again: seq<Market>, t: Ticker)
    requires forall m :: m in ms <==> m in again
    ensures t in Newest(again) <==> t in Newest(ms)
    ensures t in Newest(ms) ==>
              && Newest(again)[t].ticker == t && Freshest(ms, Newest(again)[t])
              && Newest(ms)[t].ticker == t && Freshest(ms, Newest(ms)[t])
  {
    NewestIsFreshest(ms, t);
    NewestIsFreshest(again, t);
    SameMembersSameLists(ms, again, t);
    SameMembersSameLists(again, ms, t);
    if t in Newest(ms) { SameMembersSameFreshest(ms, again, Newest(again)[t]); }
  }

  /** Without such a pair every order of the listing decides the same. */
  lemma OutcomeIgnoresOrder(ms: seq<Market>, again: seq<Market>, x: Setting)
    requires multiset(again) == multiset(ms) && !HasCloseTie(ms, x.policy)
    ensures Outcome(Selecting(again, x)) == Outcome(Selecting(ms, x))
  {
    var a, b, n := Newest(again), Newest(ms), |x.policy.groups|;
    SameMembers(ms, again);
    OrdersAreAlike(ms, again, x);
    AlikeStates(a, b, x);
    CopiesAreMore(again);
    CopiesAreMore(ms);
    AlikeCounts(|ms|, a, b, x.policy, x.now, StateAfter(b, x, n));
  }

  lemma Foremost(ms: seq<Market>, m: Market) returns (rest: seq<Market>)
    requires m in ms
    ensures multiset([m] + rest) == multiset(ms)
  {
    var i :| 0 <= i < |ms| && ms[i] == m;
    rest := ms[..i] + ms[i + 1..];
    assert ms == ms[..i] + ([m] + ms[i + 1..]);
  }

  /** Which of two equally fresh copies comes first decides which is kept, and nothing else. */
  lemma {:induction false} OnlyOneDiffers(a: Market, b: Market, rest: seq<Market>)
    requires a.ticker == b.ticker && Freshness(a) == Freshness(b)
    requires forall i :: 0 <= i < |rest| && rest[i].ticker == a.ticker ==> !Fresher(rest[i], a)
    ensures var u, v := Newest([a, b] + rest), Newest([b, a] + rest);
            u == v[a.ticker := a] && a.ticker in v && v[a.ticker] == b
  {
    if rest == [] {
      BeforeIsTotal(Freshness(a), Freshness(b));
      FirstIsKept(a, b);
      FirstIsKept(b, a);
      assert [a, b] + rest == [a, b] && [b, a] + rest == [b, a];
    } else {
      var init, m := rest[..|rest| - 1], rest[|rest| - 1];
      OnlyOneDiffers(a, b, init);
      NewestSnoc([a, b], init, m);
      NewestSnoc([b, a], init, m);
      assert rest == init + [m];
      KeptAlike(Newest([b, a] + init), a, b, m);
    }
  }

  lemma NewestSnoc(front: seq<Market>, init: seq<Market>, m: Market)
    ensures Newest(front + (init + [m])) == Kept1(Newest(front + init), m)
  {
    assert front + (init + [m]) == (front + init) + [m];
    assert ((front + init) + [m])[..|front + init|] == front + init;
  }

  lemma KeptAlike(v: Listing, a: Market, b: Market, m: Market)
    requires a.ticker in v && v[a.ticker] == b && a.ticker == b.ticker && Freshness(a) == Freshness(b)
    requires m.ticker == a.ticker ==> !Fresher(m, a)
    ensures Kept1(v[a.ticker := a], m) == Kept1(v, m)[a.ticker := a] && a.ticker in Kept1(v, m)
            && Kept1(v, m)[a.ticker] == b
  {
  }

  /** A group passes over a market for its event or for its own caps, never as a filter or the budget would. */
  ghost predicate GroupReasons(passed: map<Ticker, Reason>) {
    forall t :: t in passed ==> OfGroup(passed[t])
  }

  predicate OfGroup(r: Reason) {
    r.EventBeyondHorizon? || r.BelowVolume? || r.EventNotChosen? || r.OverEventCap? || r.OverGroupCap?
  }

  lemma {:induction false} RecordedGroupReasons(
      listed: Listing, ts: seq<Ticker>, some: seq<Ticker>, chosen: seq<Ticker>, passed: map<Ticker, Reason>, g: Group,
      floor: int, now: int)
    requires Known(listed, ts) && Known(listed, some) && GroupReasons(passed)
    ensures GroupReasons(Recorded(listed, ts, some, chosen, passed, g, floor, now))
  {
    if some != [] {
      RecordedGroupReasons(listed, ts, some[..|some| - 1], chosen, passed, g, floor, now);
      PassedGroupReasons(listed, ts, g, floor, now, some[|some| - 1]);
    }
  }

  lemma PassedGroupReasons(listed: Listing, ts: seq<Ticker>, g: Group, floor: int, now: int, t: Ticker)
    requires Known(listed, ts) && t in listed
    ensures OfGroup(PassedFor(listed, ts, g, floor, now, t))
  {
  }

  lemma AppliedGroupReasons(listed: Listing, st: State, g: Group, x: Setting)
    requires st.unchosen <= listed.Keys && GroupReasons(st.passed)
    ensures GroupReasons(Applied(listed, st, g, x).passed)
  {
    if g.name !in x.pinned {
      var ts := Candidates(listed, st.unchosen, g, x.categories);
      RecordedGroupReasons(listed, ts, ts, Choose(listed, ts, g, x.policy.minVolume, x.now), st.passed, g,
          x.policy.minVolume, x.now);
    }
  }

  lemma {:induction false} NeverThroughout(states: seq<State>, n: nat)
    requires n < |states| && GroupReasons(states[0].passed)
    requires forall i, j ::
             0 <= i && j == i + 1 < |states| && GroupReasons(states[i].passed) ==> GroupReasons(states[j].passed)
    ensures GroupReasons(states[n].passed)
  {
    if n > 0 {
      NeverThroughout(states, n - 1);
      assert GroupReasons(states[n - 1].passed);
    }
  }

  lemma NextGroupReasons(listed: Listing, x: Setting, n: nat, st: State, after: State)
    requires 0 < n <= |x.policy.groups| && st == StateAfter(listed, x, n - 1) && after == StateAfter(listed, x, n)
             && GroupReasons(st.passed)
    ensures GroupReasons(after.passed)
  {
    NextState(listed, x, n, st);
    AppliedGroupReasons(listed, st, x.policy.groups[n - 1], x);
  }

  lemma StatesGroupReasons(listed: Listing, x: Setting)
    ensures GroupReasons(StatesOf(listed, x)[|x.policy.groups|].passed)
  {
    var states := StatesOf(listed, x);
    StartsSilent(listed, x);
    forall i, j | 0 <= i && j == i + 1 < |states| && GroupReasons(states[i].passed)
      ensures GroupReasons(states[j].passed)
    {
      NextGroupReasons(listed, x, j, states[i], states[j]);
    }
    NeverThroughout(states, |x.policy.groups|);
  }

  /** Closed markets are those the filters reject as such; no group passes over one for it. */
  lemma ClosedCount(ms: seq<Market>, x: Setting)
    requires ValidSetting(x)
    ensures Get(Selecting(ms, x).counts, Closed) == |RejectedFor(Newest(ms).Keys, Newest(ms), x.policy, x.now, Closed)|
  {
    CountIs(ms, x, Closed);
    StatesGroupReasons(Newest(ms), x);
    NoneLeftClosed(StatesOf(Newest(ms), x)[|x.policy.groups|]);
  }

  lemma NoneLeftClosed(st: State)
    requires GroupReasons(st.passed)
    ensures |LeftFor(st.unchosen, st.passed, Closed)| == 0
  {
    assert LeftFor(st.unchosen, st.passed, Closed) == {};
  }

  lemma OneMoreClosed(u: Listing, v: Listing, a: Market, p: Policy, now: int)
    requires a.ticker in v && u == v[a.ticker := a] && Rejection(a, p, now).None?
             && Rejection(v[a.ticker], p, now) == Some(Closed)
    ensures |RejectedFor(v.Keys, v, p, now, Closed)| == |RejectedFor(u.Keys, u, p, now, Closed)| + 1
  {
    assert u.Keys == v.Keys;
    assert RejectedFor(v.Keys, v, p, now, Closed) == RejectedFor(u.Keys, u, p, now, Closed) + {a.ticker};
  }

  lemma CloseTieMeans(ms: seq<Market>, x: Setting, a: Market, b: Market)
    requires CloseTie(ms, x.policy, a, b) && x.now >= -1
    ensures Rejection(a, x.policy, x.now).None? && Rejection(b, x.policy, x.now) == Some(Closed)
    ensures a.ticker == b.ticker && Freshness(a) == Freshness(b)
  {
    TiedMeans(a, b);
    var c, d := a.(close := None, strike := None), b.(close := None, strike := None);
    assert c.status == a.status && d.status == b.status && c.mve == a.mve && d.mve == b.mve;
  }

  /** Put first in turn, the copies of such a pair leave the market open in one order and closed in the other. */
  lemma CloseTieShows(ms: seq<Market>, x: Setting, a: Market, b: Market) returns (u: seq<Market>, v: seq<Market>)
    requires ValidSetting(x) && CloseTie(ms, x.policy, a, b) && x.now >= -1
    ensures multiset(u) == multiset(ms) == multiset(v)
    ensures Get(Selecting(v, x).counts, Closed) == Get(Selecting(u, x).counts, Closed) + 1
  {
    CloseTieMeans(ms, x, a, b);
    var without := Foremost(ms, a);
    assert b in multiset(ms) && b in multiset([a] + without) && b in [a] + without;
    assert b in without;
    var rest := Foremost(without, b);
    u, v := [a, b] + rest, [b, a] + rest;
    TwoInFront(ms, without, rest, a, b);
    forall i | 0 <= i < |rest| && rest[i].ticker == a.ticker ensures !Fresher(rest[i], a) {
      SameMembers(ms, u);
      assert u[i + 2] == rest[i] && rest[i] in ms;
      var j :| 0 <= j < |ms| && ms[j] == rest[i];
    }
    OnlyOneDiffers(a, b, rest);
    OneMoreClosed(Newest(u), Newest(v), a, x.policy, x.now);
    ClosedCount(u, x);
    ClosedCount(v, x);
  }

  lemma TwoInFront(ms: seq<Market>, without: seq<Market>, rest: seq<Market>, a: Market, b: Market)
    requires multiset([a] + without) == multiset(ms) && multiset([b] + rest) == multiset(without)
    ensures multiset([a, b] + rest) == multiset(ms) == multiset([b, a] + rest)
  {
    assert [a, b] + rest == [a] + ([b] + rest);
    assert [b, a] + rest == [b] + ([a] + rest);
  }

  /** Some order of the listing changes what is decided if and only if two freshest copies of an open market tie with
      one of them closed. The clock reads Unix seconds, not before 1970. */
  lemma OrderDecidesIff(ms: seq<Market>, x: Setting)
    requires ValidSetting(x) && x.now >= -1
    ensures HasCloseTie(ms, x.policy)
            <==> exists again ::
                   multiset(again) == multiset(ms) && Outcome(Selecting(again, x)) != Outcome(Selecting(ms, x))
  {
    if HasCloseTie(ms, x.policy) {
      var a, b :| CloseTie(ms, x.policy, a, b);
      var u, v := CloseTieShows(ms, x, a, b);
      assert Outcome(Selecting(u, x)).counts != Outcome(Selecting(v, x)).counts;
    }
    if again :| multiset(again) == multiset(ms) && Outcome(Selecting(again, x)) != Outcome(Selecting(ms, x)) {
      if !HasCloseTie(ms, x.policy) { OutcomeIgnoresOrder(ms, again, x); }
    }
  }

  // ------------------------------------------------------------------ and in the copies it carries

  /** Tied freshest copies of a market that is admitted. */
  ghost predicate AdmittedTie(ms: seq<Market>, x: Setting) {
    exists a, b :: Freshest(ms, a) && Freshest(ms, b) && Tied(a, b) && a.ticker in Selecting(ms, x).groupOf
  }

  lemma {:induction false} MarketsInAre(order: seq<Ticker>, listed: Listing, groupOf: map<Ticker, Key>, m: Market)
    requires Known(listed, order)
    ensures m in MarketsIn(order, listed, groupOf)
            <==> exists i :: 0 <= i < |order| && order[i] in groupOf && listed[order[i]] == m
  {
    if order != [] {
      var init, last := order[..|order| - 1], order[|order| - 1];
      MarketsInAre(init, listed, groupOf, m);
      if m in MarketsIn(init, listed, groupOf) {
        var i :| 0 <= i < |init| && init[i] in groupOf && listed[init[i]] == m;
        assert order[i] == init[i];
      }
      if i :| 0 <= i < |order| && order[i] in groupOf && listed[order[i]] == m {
        if i < |init| { assert init[i] == order[i]; }
      }
    }
  }

  lemma {:induction false} MarketsInAgree(order: seq<Ticker>, a: Listing, b: Listing, groupOf: map<Ticker, Key>)
    requires Known(a, order) && Known(b, order)
             && forall i :: 0 <= i < |order| && order[i] in groupOf ==> a[order[i]] == b[order[i]]
    ensures MarketsIn(order, a, groupOf) == MarketsIn(order, b, groupOf)
  {
    if order != [] { MarketsInAgree(order[..|order| - 1], a, b, groupOf); }
  }

  /** The decision carries the copy kept of a market it admits, and no other. */
  lemma CarriesKept(ms: seq<Market>, x: Setting, m: Market)
    requires m.ticker in Selecting(ms, x).groupOf && m.ticker in Newest(ms)
    ensures m in Selecting(ms, x).markets <==> Newest(ms)[m.ticker] == m
  {
    var listed := Newest(ms);
    var order := Sorted(listed.Keys);
    SortedIsKnown(listed, listed.Keys);
    MarketsInAre(order, listed, Selecting(ms, x).groupOf, m);
    assert m.ticker in order;
    var k :| 0 <= k < |order| && order[k] == m.ticker;
    assert listed[m.ticker] == m ==> order[k] in Selecting(ms, x).groupOf && listed[order[k]] == m;
    forall i | 0 <= i < |order| && listed[order[i]] == m ensures order[i] == m.ticker {
      NewestIsFreshest(ms, order[i]);
    }
  }

  lemma AdmittedTieShows(ms: seq<Market>, x: Setting)
    requires ValidSetting(x) && AdmittedTie(ms, x) && !HasCloseTie(ms, x.policy)
    ensures exists again :: multiset(again) == multiset(ms) && Selecting(again, x) != Selecting(ms, x)
  {
    var a, b :| Freshest(ms, a) && Freshest(ms, b) && Tied(a, b) && a.ticker in Selecting(ms, x).groupOf;
    var u := PutFirst(ms, a);
    var v := PutFirst(ms, b);
    OutcomeIgnoresOrder(ms, u, x);
    OutcomeIgnoresOrder(ms, v, x);
    assert Outcome(Selecting(u, x)).groupOf == Outcome(Selecting(v, x)).groupOf == Outcome(Selecting(ms, x)).groupOf;
    CarriesKept(u, x, a);
    CarriesKept(v, x, a);
    assert a in Selecting(u, x).markets && a !in Selecting(v, x).markets;
  }

  lemma DecisionIgnoresOrder(ms: seq<Market>, again: seq<Market>, x: Setting)
    requires multiset(again) == multiset(ms) && !HasCloseTie(ms, x.policy) && !AdmittedTie(ms, x)
    ensures Selecting(again, x) == Selecting(ms, x)
  {
    var a, b, d := Newest(again), Newest(ms), Selecting(ms, x);
    OutcomeIgnoresOrder(ms, again, x);
    assert Outcome(Selecting(again, x)).groupOf == d.groupOf;
    SameMembers(ms, again);
    forall t ensures t in a <==> t in b { SameCopies(ms, again, t); }
    assert a.Keys == b.Keys;
    var order := Sorted(b.Keys);
    SortedIsKnown(b, b.Keys);
    forall i | 0 <= i < |order| && order[i] in d.groupOf
      ensures a[order[i]] == b[order[i]]
    {
      AdmittedCopyIsSame(ms, again, x, order[i]);
    }
    MarketsInAgree(order, a, b, d.groupOf);
    SameDecision(Selecting(again, x), d);
  }

  lemma AdmittedCopyIsSame(ms: seq<Market>, again: seq<Market>, x: Setting, t: Ticker)
    requires (forall m :: m in ms <==> m in again) && !AdmittedTie(ms, x) && t in Newest(ms)
             && t in Selecting(ms, x).groupOf
    ensures t in Newest(again) && Newest(again)[t] == Newest(ms)[t]
  {
    SameCopies(ms, again, t);
    if Newest(again)[t] != Newest(ms)[t] { TwoFreshest(ms, Newest(again)[t], Newest(ms)[t]); }
  }

  lemma SameDecision(d: Decision, e: Decision)
    requires Outcome(d) == Outcome(e) && d.markets == e.markets
    ensures d == e
  {
    assert d == Outcome(d).(markets := d.markets) && e == Outcome(e).(markets := e.markets);
  }

  /** The whole decision depends on the order if and only if such a pair exists or tied copies of an admitted market. */
  lemma OrderShowsInDecisionIff(ms: seq<Market>, x: Setting)
    requires ValidSetting(x) && x.now >= -1
    ensures HasCloseTie(ms, x.policy) || AdmittedTie(ms, x)
            <==> exists again :: multiset(again) == multiset(ms) && Selecting(again, x) != Selecting(ms, x)
  {
    OrderDecidesIff(ms, x);
    if HasCloseTie(ms, x.policy) {
      var again :| multiset(again) == multiset(ms) && Outcome(Selecting(again, x)) != Outcome(Selecting(ms, x));
      assert Selecting(again, x) != Selecting(ms, x);
    } else if AdmittedTie(ms, x) {
      AdmittedTieShows(ms, x);
    }
    if again :| multiset(again) == multiset(ms) && Selecting(again, x) != Selecting(ms, x) {
      if !HasCloseTie(ms, x.policy) && !AdmittedTie(ms, x) { DecisionIgnoresOrder(ms, again, x); }
    }
  }

  lemma SoleAdmitted(listed: Listing, m: Market, x: Setting, g: Group)
    requires ValidSetting(x) && x.policy.groups == [g] && g.name !in x.pinned && Roomy(g, 1) && x.policy.budget >= 1
             && g.maxHours.None?
    requires listed == map[m.ticker := m] && Rejection(m, x.policy, x.now).None? && Selects(g, m, x.categories)
    requires g.selector.ByCategory? ==> m.volume >= x.policy.minVolume
    ensures StateAfter(listed, x, 1).groupOf == map[m.ticker := g.name]
  {
    WantedAlone(listed, m, x, g);
    RoomyAdmits(listed, x, g, m.ticker);
    OnlyAdmitted(listed, x, g, m.ticker);
  }

  lemma WantedAlone(listed: Listing, m: Market, x: Setting, g: Group)
    requires g.maxHours.None? && listed == map[m.ticker := m] && Rejection(m, x.policy, x.now).None?
             && Selects(g, m, x.categories)
    requires g.selector.ByCategory? ==> m.volume >= x.policy.minVolume
    ensures var ts := Candidates(listed, Eligible(listed, x.policy, x.now), g, x.categories);
            ts == [m.ticker] && Wanted(listed, ts, g, x.policy.minVolume, x.now, m.ticker)
  {
    OnlyCandidate(listed, m, x, g);
    MarketsSnoc(listed, [], m.ticker, EventOf(m));
    assert [] + [m.ticker] == [m.ticker] && [m.ticker][..0] == [];
    assert EventVolume(listed, [m.ticker]) == m.volume;
  }

  lemma OnlyAdmitted(listed: Listing, x: Setting, g: Group, t: Ticker)
    requires ValidSetting(x) && x.policy.groups == [g] && Eligible(listed, x.policy, x.now) <= {t}
    requires |StateAfter(listed, x, 1).selections| == 1 && t in StateAfter(listed, x, 1).selections[0].tickers
    ensures StateAfter(listed, x, 1).groupOf == map[t := g.name]
  {
    OneGroupEach(listed, x, 0, 0, t);
    BudgetHolds(listed, x);
    OnlyKey(StateAfter(listed, x, 1).groupOf, t, g.name);
  }

  lemma OnlyKey(groupOf: map<Ticker, Key>, t: Ticker, name: Key)
    requires groupOf.Keys <= {t} && t in groupOf && groupOf[t] == name
    ensures groupOf == map[t := name]
  {
  }

  lemma OnlyCandidate(listed: Listing, m: Market, x: Setting, g: Group)
    requires listed == map[m.ticker := m] && Rejection(m, x.policy, x.now).None? && Selects(g, m, x.categories)
    ensures Candidates(listed, Eligible(listed, x.policy, x.now), g, x.categories) == [m.ticker]
  {
    var t, ts := m.ticker, Candidates(listed, Eligible(listed, x.policy, x.now), g, x.categories);
    DistinctCount(ts);
    assert Elems(ts) == {t};
    assert |ts| == 1 && ts[0] in ts;
  }

  lemma NoneAdmitted(listed: Listing, x: Setting)
    requires ValidSetting(x) && Eligible(listed, x.policy, x.now) == {}
    ensures StateAfter(listed, x, |x.policy.groups|).groupOf == map[]
  {
    BudgetHolds(listed, x);
  }

  /** It can decide what is recorded: of an open market with no close time and a copy of it closing at -1, the one that
      comes first is kept, and a group admits the market in the one order and not in the other. */
  lemma OrderAdmits(m: Market, x: Setting, g: Group)
    requires ValidSetting(x) && x.policy.groups == [g] && g.name !in x.pinned && Roomy(g, 1) && x.policy.budget >= 1
             && g.maxHours.None?
    requires m.close.None? && Rejection(m, x.policy, x.now).None? && Selects(g, m, x.categories) && x.now >= -1
    requires g.selector.ByCategory? ==> m.volume >= x.policy.minVolume
    ensures Selecting([m, m.(close := Some(-1))], x).groupOf == map[m.ticker := g.name]
    ensures Selecting([m.(close := Some(-1)), m], x).groupOf == map[]
  {
    var late := m.(close := Some(-1));
    BeforeIsTotal(Freshness(m), Freshness(late));
    FirstIsKept(m, late);
    FirstIsKept(late, m);
    SoleAdmitted(Newest([m, late]), m, x, g);
    NoneAdmitted(Newest([late, m]), x);
  }

  // ------------------------------------------------------------------ the loops

  /** The first half of `_eligible`: one copy of each ticker. */
  method KeepNewest(ms: seq<Market>) returns (newest: Listing, duplicates: nat)
    ensures newest == Newest(ms) && duplicates + |newest.Keys| == |ms|
  {
    newest, duplicates := map[], 0;
    for i := 0 to |ms|
      invariant newest == Newest(ms[..i]) && duplicates + |newest.Keys| == i
    {
      var m := ms[i];
      PrefixGrows(ms, i);
      assert (ms[..i] + [m])[..i] == ms[..i];
      if m.ticker !in newest {
        newest := newest[m.ticker := m];
      } else {
        duplicates := duplicates + 1;
        assert newest.Keys == newest.Keys + {m.ticker};
        if Fresher(m, newest[m.ticker]) { newest := newest[m.ticker := m]; }
      }
    }
    assert ms[..|ms|] == ms;
  }

  /** The second half: the filters, in ticker order. */
  method Filter(
      newest: Listing, p: Policy, now: int, c: map<Reason, nat>)
      returns (eligible: set<Ticker>, counts: map<Reason, nat>)
    ensures eligible == Eligible(newest, p, now) && counts == RejectedCounts(c, newest, p, now)
  {
    var order := SortKeys(newest.Keys);
    SortedIsKnown(newest, newest.Keys);
    eligible, counts := FilterEach(newest, order, p, now, c);
    assert Eligible(newest, p, now) * Elems(order) == Eligible(newest, p, now);
  }

  method FilterEach(
      newest: Listing, order: seq<Ticker>, p: Policy, now: int, c: map<Reason, nat>)
      returns (eligible: set<Ticker>, counts: map<Reason, nat>)
    requires Known(newest, order)
    ensures eligible == Eligible(newest, p, now) * Elems(order) && counts == CountRejections(c, order, newest, p, now)
  {
    eligible, counts := {}, c;
    for i := 0 to |order|
      invariant eligible == Eligible(newest, p, now) * Elems(order[..i])
                && counts == CountRejections(c, order[..i], newest, p, now)
    {
      FilterNext(newest, p, now, c, order, i);
      var why := Rejection(newest[order[i]], p, now);
      if why.None? { eligible := eligible + {order[i]}; } else { counts := Bumped(counts, why.value); }
    }
    assert order[..|order|] == order;
  }

  lemma FilterNext(listed: Listing, p: Policy, now: int, c: map<Reason, nat>, order: seq<Ticker>, i: nat)
    requires Known(listed, order) && i < |order|
    ensures var why := Rejection(listed[order[i]], p, now);
            var some, counts := Eligible(listed, p, now) * Elems(order[..i]),
                CountRejections(c, order[..i], listed, p, now);
            && Eligible(listed, p, now) * Elems(order[..i + 1]) == (if why.None? then some + {order[i]} else some)
            && CountRejections(c, order[..i + 1], listed, p, now) ==
                 (if why.None? then counts else Bumped(counts, why.value))
  {
    PrefixGrows(order, i);
    OneMorePassing(listed, p, now, order[..i], order[i]);
    assert order[..i + 1][..i] == order[..i];
  }

  lemma OneMorePassing(listed: Listing, p: Policy, now: int, order: seq<Ticker>, t: Ticker)
    requires t in listed
    ensures var some := Eligible(listed, p, now) * Elems(order);
            Eligible(listed, p, now) * Elems(order + [t]) ==
                if Rejection(listed[t], p, now).None? then some + {t} else some
  {
  }

  /** What one group's `_reject` calls record: each candidate not chosen, unless an earlier group already said why. */
  method PassOver(
      listed: Listing, ts: seq<Ticker>, chosen: seq<Ticker>, passed: map<Ticker, Reason>, g: Group, floor: int,
      now: int)
    returns (after: map<Ticker, Reason>)
    requires Known(listed, ts)
    ensures after == Recorded(listed, ts, ts, chosen, passed, g, floor, now)
  {
    after := passed;
    for i := 0 to |ts|
      invariant after == Recorded(listed, ts, ts[..i], chosen, passed, g, floor, now)
    {
      RecordedNext(listed, ts, i, chosen, passed, g, floor, now);
      if ts[i] !in chosen && ts[i] !in after { after := after[ts[i] := PassedFor(listed, ts, g, floor, now, ts[i])]; }
    }
    assert ts[..|ts|] == ts;
  }

  method NameEach(groupOf: map<Ticker, Key>, name: Key, ts: seq<Ticker>) returns (after: map<Ticker, Key>)
    ensures after == NamedFor(groupOf, name, ts)
  {
    after := groupOf;
    for i := 0 to |ts|
      invariant after == NamedFor(groupOf, name, ts[..i])
    {
      assert ts[..i + 1][..i] == ts[..i];
      after := after[ts[i] := name];
    }
    assert ts[..|ts|] == ts;
  }

  /** What a group chooses, and the reasons recorded after it. */
  method ChooseFor(
      listed: Listing, st: State, g: Group, x: Setting) returns (chosen: seq<Ticker>, passed: map<Ticker, Reason>)
    requires st.unchosen <= listed.Keys
    ensures chosen == ChosenBy(listed, st.unchosen, g, x) && passed == PassedAfter(listed, st, g, x)
  {
    if g.name in x.pinned {
      chosen, passed := StillOpen(x.pinned[g.name], st.unchosen), st.passed;
    } else {
      SortedIsKnown(listed, st.unchosen);
      var order := SortKeys(st.unchosen);
      var ts := Selected(order, listed, g, x.categories);
      assert ts == Candidates(listed, st.unchosen, g, x.categories);
      chosen := Choose(listed, ts, g, x.policy.minVolume, x.now);
      passed := PassOver(listed, ts, chosen, st.passed, g, x.policy.minVolume, x.now);
    }
  }

  /** One turn of the loop over groups. */
  method ApplyGroup(listed: Listing, st: State, x: Setting, i: nat) returns (next: State)
    requires i < |x.policy.groups| && st == StateAfter(listed, x, i)
    ensures next == StateAfter(listed, x, i + 1)
  {
    var chosen, passed := ChooseFor(listed, st, x.policy.groups[i], x);
    next := Grant(st, x.policy.groups[i], chosen, passed);
  }

  method Grant(st: State, g: Group, chosen: seq<Ticker>, passed: map<Ticker, Reason>) returns (next: State)
    ensures next == Granted(st, g, chosen, passed)
  {
    var admitted := Top(chosen, st.budget);
    var groupOf := NameEach(st.groupOf, g.name, admitted);
    var showcase := st.showcase;
    if g.selector.BySeries? { showcase := showcase + Elems(admitted); }
    var skipped := |chosen| - |admitted|;
    next := State(st.unchosen - Elems(chosen), passed, groupOf, showcase, st.budget - |admitted|, st.skipped + skipped,
                  st.selections + [Selection(g.name, admitted, skipped)]);
  }

  method CountLeft(c: map<Reason, nat>, st: State) returns (counts: map<Reason, nat>)
    ensures counts == GroupCounts(c, st)
  {
    counts := AddedTo(c, OverCap, st.skipped);
    ghost var start := counts;
    var order := SortKeys(st.unchosen);
    for i := 0 to |order|
      invariant counts == CountPassed(start, order[..i], st.passed)
    {
      PrefixGrows(order, i);
      assert (order[..i] + [order[i]])[..i] == order[..i];
      counts := Bumped(counts, if order[i] in st.passed then st.passed[order[i]] else NoGroup);
    }
    assert order[..|order|] == order;
  }

  method Begin(listed: Listing, x: Setting, eligible: set<Ticker>) returns (st: State)
    requires eligible == Eligible(listed, x.policy, x.now)
    ensures st == StateAfter(listed, x, 0)
  {
    st := State(eligible, map[], map[], {}, x.policy.budget, 0, []);
  }

  method ApplyGroups(listed: Listing, x: Setting, eligible: set<Ticker>) returns (st: State)
    requires eligible == Eligible(listed, x.policy, x.now)
    ensures st == StateAfter(listed, x, |x.policy.groups|)
  {
    st := Begin(listed, x, eligible);
    for i := 0 to |x.policy.groups|
      invariant st == StateAfter(listed, x, i)
    {
      st := ApplyGroup(listed, st, x, i);
    }
  }

  /** `_eligible`. */
  method KeepEligible(
      ms: seq<Market>, x: Setting) returns (listed: Listing, eligible: set<Ticker>, counts: map<Reason, nat>)
    ensures listed == Newest(ms) && |ms| >= |listed.Keys|
    ensures eligible == Eligible(listed, x.policy, x.now)
    ensures counts == RejectedCounts(FirstCounts(|ms|, listed), listed, x.policy, x.now)
  {
    var duplicates;
    listed, duplicates := KeepNewest(ms);
    eligible, counts := Filter(listed, x.policy, x.now, AddedTo(NoCounts(), Duplicate, duplicates));
  }

  /** The selection read off its last state. */
  method Decide(
      ms: seq<Market>, listed: Listing, x: Setting, st: State, rejected: map<Reason, nat>) returns (d: Decision)
    requires listed == Newest(ms) && |ms| >= |listed.Keys| && st == StateAfter(listed, x, |x.policy.groups|)
    requires rejected == RejectedCounts(FirstCounts(|ms|, listed), listed, x.policy, x.now)
    ensures d == Selecting(ms, x)
  {
    var counts := CountLeft(rejected, st);
    var order := SortKeys(listed.Keys);
    SortedIsKnown(listed, listed.Keys);
    d := Decision(st.groupOf, st.showcase, MarketsIn(order, listed, st.groupOf), st.selections, Get(counts, OverCap),
        counts);
  }

  /** `select`. */
  method Select(ms: seq<Market>, x: Setting) returns (d: Decision)
    ensures d == Selecting(ms, x)
  {
    var listed, eligible, rejected := KeepEligible(ms, x);
    var st := ApplyGroups(listed, x, eligible);
    d := Decide(ms, listed, x, st, rejected);
  }
}
