/** What an hour's records mean: the rows, counts, book time and spans of `src/tape/bake/interpret.py`,
    each as a function of the records read so far. */
module Interpret {
  import opened Prelude
  import opened Counts
  import opened OrderBook
  import Audit
  import Replay
  import Uptime

  // ------------------------------------------------------------------ records

  datatype LifecycleType = MarketLifecycle | EventLifecycle | EventFeeUpdate
  datatype ReplyType = OkReply | UnsubscribedReply | ErrorReply | TickerFrame

  datatype Command =
    | GetSnapshot(sid: Key, tickers: seq<Ticker>)
    | DeleteMarkets(tickers: seq<Ticker>)
    | Unsubscribe(sids: seq<Key>)
    | OtherCommand

  datatype Happening =
    | Opened | Closed(stopped: bool) | Errored
    | ClockJump(wallDelta: Option<int>, monoDelta: Option<int>)
    | WriterOverflow(dropped: Option<nat>)
    | OtherHappening

  /** A record's payload as far as it decodes. */
  datatype Content =
    | BrokenEnvelope | UnknownFrame | BrokenFrame
    | Delta(ticker: Ticker, sid: Key, seqNo: int, side: Side, price: Price, delta: int)
    | Snapshot(ticker: Ticker, sid: Key, seqNo: int, bids: seq<Level>, asks: seq<Level>)
    | Trade(detail: Key)
    | Lifecycle(lifecycle: LifecycleType, detail: Key)
    | Subscribed(sid: Key, orderbook: bool)
    | Reply(reply: ReplyType)
    | BrokenCommand | Command(command: Command)
    | BrokenGap | Gap(sid: Key, expected: int, got: int)
    | BrokenAudit | Audited(detail: Key, outcome: Audit.Outcome, mismatched: Option<nat>)
    | BrokenConnection | Connection(happening: Happening)

  datatype Record = Record(conn: Key, wall: int, mono: int, content: Content)

  // ------------------------------------------------------------------ how a record is counted

  datatype Kind = FrameKind | CommandKind | GapKind | ConnectionKind | AuditKind

  datatype BakedAs = AsDelta | AsSnapshot | AsTrade | AsLifecycle(lifecycle: LifecycleType) | AsGap | AsAudit

  datatype NotBakedAs = AsSubscribed | AsReply(reply: ReplyType) | AsCommand | AsConnection

  datatype Failure =
    | FrameEnvelope | FramePayload | FrameUnknownType
    | GapPayload | AuditPayload | ConnectionPayload | CommandPayload | SegmentCorrupt

  datatype Outcome = Baked(baked: BakedAs) | NotBaked(notBaked: NotBakedAs) | Failed(failure: Failure)

  function KindOf(x: Content): Kind {
    match x
    case BrokenCommand => CommandKind
    case Command(_) => CommandKind
    case BrokenGap => GapKind
    case Gap(_, _, _) => GapKind
    case BrokenAudit => AuditKind
    case Audited(_, _, _) => AuditKind
    case BrokenConnection => ConnectionKind
    case Connection(_) => ConnectionKind
    case _ => FrameKind
  }

  function OutcomeOf(x: Content): Outcome {
    match x
    case BrokenEnvelope => Failed(FrameEnvelope)
    case UnknownFrame => Failed(FrameUnknownType)
    case BrokenFrame => Failed(FramePayload)
    case Delta(_, _, _, _, _, _) => Baked(AsDelta)
    case Snapshot(_, _, _, _, _) => Baked(AsSnapshot)
    case Trade(_) => Baked(AsTrade)
    case Lifecycle(l, _) => Baked(AsLifecycle(l))
    case Subscribed(_, _) => NotBaked(AsSubscribed)
    case Reply(reply) => NotBaked(AsReply(reply))
    case BrokenCommand => Failed(CommandPayload)
    case Command(_) => NotBaked(AsCommand)
    case BrokenGap => Failed(GapPayload)
    case Gap(_, _, _) => Baked(AsGap)
    case BrokenAudit => Failed(AuditPayload)
    case Audited(_, _, _) => Baked(AsAudit)
    case BrokenConnection => Failed(ConnectionPayload)
    case Connection(_) => NotBaked(AsConnection)
  }

  datatype Counters = Counters(
    records: map<Kind, nat>, baked: map<BakedAs, nat>, notBaked: map<NotBakedAs, nat>, failures: map<Failure, nat>)

  function Counted(c: Counters, x: Content): Counters {
    match OutcomeOf(x)
    case Baked(b) => c.(records := Bumped(c.records, KindOf(x)), baked := Bumped(c.baked, b))
    case NotBaked(n) => c.(records := Bumped(c.records, KindOf(x)), notBaked := Bumped(c.notBaked, n))
    case Failed(f) => c.(records := Bumped(c.records, KindOf(x)), failures := Bumped(c.failures, f))
  }

  function CountedAll(c: Counters, recs: seq<Record>): Counters {
    if recs == [] then c else Counted(CountedAll(c, recs[..|recs| - 1]), recs[|recs| - 1].content)
  }

  // ------------------------------------------------------------------ every record is counted once

  function WithKind(recs: seq<Record>, k: Kind): nat {
    if recs == [] then 0 else WithKind(recs[..|recs| - 1], k) + (if KindOf(recs[|recs| - 1].content) == k then 1 else 0)
  }

  function WithOutcome(recs: seq<Record>, o: Outcome): nat {
    if recs == [] then 0 else
        WithOutcome(recs[..|recs| - 1], o) + (if OutcomeOf(recs[|recs| - 1].content) == o then 1 else 0)
  }

  lemma CountedNext(c: Counters, x: Content, k: Kind, o: Outcome)
    ensures Get(Counted(c, x).records, k) == Get(c.records, k) + (if KindOf(x) == k then 1 else 0)
    ensures Number(Counted(c, x), o) == Number(c, o) + (if OutcomeOf(x) == o then 1 else 0)
  {
  }

  function Number(c: Counters, o: Outcome): nat {
    match o
    case Baked(b) => Get(c.baked, b)
    case NotBaked(n) => Get(c.notBaked, n)
    case Failed(f) => Get(c.failures, f)
  }

  /** Each count is the number of records of that kind, or with that outcome. */
  lemma {:induction false} CountsAreExact(c: Counters, recs: seq<Record>, k: Kind, o: Outcome)
    ensures Get(CountedAll(c, recs).records, k) == Get(c.records, k) + WithKind(recs, k)
    ensures Number(CountedAll(c, recs), o) == Number(c, o) + WithOutcome(recs, o)
  {
    if recs != [] {
      CountsAreExact(c, recs[..|recs| - 1], k, o);
      CountedNext(CountedAll(c, recs[..|recs| - 1]), recs[|recs| - 1].content, k, o);
    }
  }

  ghost predicate Balanced(c: Counters) {
    Total(c.records) == Total(c.baked) + Total(c.notBaked) + Total(c.failures)
  }

  /** Records read are those baked, those not baked and the decode failures; nothing is counted twice or lost. */
  lemma {:induction false} RecordsBalance(c: Counters, recs: seq<Record>)
    requires Balanced(c)
    ensures Balanced(CountedAll(c, recs)) && Total(CountedAll(c, recs).records) == Total(c.records) + |recs|
  {
    if recs != [] {
      var init, x := recs[..|recs| - 1], recs[|recs| - 1].content;
      RecordsBalance(c, init);
      var before := CountedAll(c, init);
      BumpedTotal(before.records, KindOf(x));
      match OutcomeOf(x)
      case Baked(b) => BumpedTotal(before.baked, b);
      case NotBaked(n) => BumpedTotal(before.notBaked, n);
      case Failed(f) => BumpedTotal(before.failures, f);
    }
  }

  // ------------------------------------------------------------------ failure samples

  const MAX_FAILURE_SAMPLES := 5

  datatype Place = Place(segment: Key, index: nat)

  datatype Sample = Sample(failure: Failure, place: Place)

  datatype Samples = Samples(listed: seq<Sample>, kept: map<Failure, nat>)

  function Sampled(s: Samples, place: Place, x: Content): Samples {
    match OutcomeOf(x)
    case Failed(f) =>
      if Get(s.kept, f) < MAX_FAILURE_SAMPLES then Samples(s.listed + [Sample(f, place)], Bumped(s.kept, f)) else s
    case _ => s
  }

  function SampledAll(s: Samples, name: Key, recs: seq<Record>): Samples {
    if recs == [] then s else
      Sampled(SampledAll(s, name, recs[..|recs| - 1]), Place(name, |recs| - 1), recs[|recs| - 1].content)
  }

  function Listed(s: seq<Sample>, f: Failure): seq<Place> {
    if s == [] then [] else
      Listed(s[..|s| - 1], f) + (if s[|s| - 1].failure == f then [s[|s| - 1].place] else [])
  }

  function Failing(name: Key, recs: seq<Record>, f: Failure): seq<Place> {
    if recs == [] then [] else
      Failing(name, recs[..|recs| - 1], f) + PlaceOf(Place(name, |recs| - 1), recs[|recs| - 1].content, f)
  }

  lemma ListedNext(s: seq<Sample>, last: Sample, f: Failure)
    ensures Listed(s + [last], f) == if last.failure == f then Listed(s, f) + [last.place] else Listed(s, f)
  {
    assert (s + [last])[..|s|] == s;
  }

  function PlaceOf(place: Place, x: Content, f: Failure): seq<Place> {
    if OutcomeOf(x) == Failed(f) then [place] else []
  }

  /** `s` lists the first few of these failures of a class. */
  ghost predicate Holds(s: Samples, f: Failure, all: seq<Place>) {
    Listed(s.listed, f) <= all && Get(s.kept, f) == |Listed(s.listed, f)| == Min(|all|, 5)
  }

  lemma OtherSample(s: Samples, place: Place, x: Content, f: Failure)
    requires OutcomeOf(x) != Failed(f)
    ensures Listed(Sampled(s, place, x).listed, f) == Listed(s.listed, f)
            && Get(Sampled(s, place, x).kept, f) == Get(s.kept, f)
  {
    if OutcomeOf(x).Failed? { ListedNext(s.listed, Sample(OutcomeOf(x).failure, place), f); }
  }

  lemma SampledNext(s: Samples, place: Place, x: Content, f: Failure, before: seq<Place>)
    requires Holds(s, f, before)
    ensures Holds(Sampled(s, place, x), f, before + PlaceOf(place, x, f))
  {
    if OutcomeOf(x) == Failed(f) {
      ListedNext(s.listed, Sample(f, place), f);
    } else {
      OtherSample(s, place, x, f);
      assert before + [] == before;
    }
  }

  /** The samples kept of a class are its first five failures, wherever they were. */
  lemma {:induction false} SamplesAreTheFirst(s: Samples, name: Key, recs: seq<Record>, f: Failure, before: seq<Place>)
    requires Holds(s, f, before)
    ensures Holds(SampledAll(s, name, recs), f, before + Failing(name, recs, f))
  {
    if recs == [] {
      assert before + [] == before;
    } else {
      var init, x, place := recs[..|recs| - 1], recs[|recs| - 1].content, Place(name, |recs| - 1);
      SamplesAreTheFirst(s, name, init, f, before);
      SampledNext(SampledAll(s, name, init), place, x, f, before + Failing(name, init, f));
      assert before + Failing(name, recs, f) == before + Failing(name, init, f) + PlaceOf(place, x, f);
    }
  }

  // ------------------------------------------------------------------ markets held

  /** `staleSince` is set while the market's book is stale. */
  datatype Market = Market(sid: Key, since: int, staleSince: Option<int>)

  type Markets = map<Ticker, Market>

  function Seen(ms: Markets, t: Ticker, sid: Key, wall: int): Markets {
    if t in ms then ms else ms[t := Market(sid, wall, None)]
  }

  function Freshened(ms: Markets, t: Ticker): Markets
    requires t in ms
  {
    ms[t := ms[t].(staleSince := None)]
  }

  function Stalled(m: Market, wall: int): Market {
    if m.staleSince.None? then m.(staleSince := Some(wall)) else m
  }

  /** A gap on a subscription stales every book it carries. */
  function StalledOn(ms: Markets, sid: Key, wall: int): Markets {
    map t | t in ms :: if ms[t].sid == sid then Stalled(ms[t], wall) else ms[t]
  }

  function LeftBy(ms: Markets, c: Command): set<Ticker> {
    match c
    case DeleteMarkets(ts) => set t | t in ms && t in ts
    case Unsubscribe(sids) => set t | t in ms && ms[t].sid in sids
    case _ => {}
  }

  function MarketsNext(ms: Markets, r: Record): Markets {
    match r.content
    case Delta(t, sid, _, _, _, _) => Seen(ms, t, sid, r.wall)
    case Snapshot(t, sid, _, _, _) => Freshened(Seen(ms, t, sid, r.wall), t)
    case Gap(sid, _, _) => StalledOn(ms, sid, r.wall)
    case Command(c) => ms - LeftBy(ms, c)
    case _ => ms
  }

  function MarketsAfter(recs: seq<Record>): Markets {
    if recs == [] then map[] else MarketsNext(MarketsAfter(recs[..|recs| - 1]), recs[|recs| - 1])
  }

  function SidsNext(sids: set<Key>, x: Content): set<Key> {
    match x
    case Delta(_, sid, _, _, _, _) => sids + {sid}
    case Snapshot(_, sid, _, _, _) => sids + {sid}
    case Subscribed(sid, true) => sids + {sid}
    case _ => sids
  }

  /** The subscriptions seen to carry books. */
  function SidsAfter(recs: seq<Record>): set<Key> {
    if recs == [] then {} else SidsNext(SidsAfter(recs[..|recs| - 1]), recs[|recs| - 1].content)
  }

  /** A held market's subscription is always one seen to carry books, so a gap passes over no book. */
  lemma {:induction false} HeldSidsCarryBooks(recs: seq<Record>, t: Ticker)
    requires t in MarketsAfter(recs)
    ensures MarketsAfter(recs)[t].sid in SidsAfter(recs)
  {
    var init := recs[..|recs| - 1];
    if t in MarketsAfter(init) { HeldSidsCarryBooks(init, t); }
  }

  // ------------------------------------------------------------------ book time

  datatype BookTime = BookTime(observed: int, stale: int) {
    function Plus(b: BookTime): BookTime {
      BookTime(observed + b.observed, stale + b.stale)
    }
  }

  ghost function Since(ms: Markets, now: int): map<Ticker, int> {
    map t | t in ms :: Max(0, now - ms[t].since)
  }

  ghost function StaleSince(ms: Markets, now: int): map<Ticker, int> {
    map t | t in ms && ms[t].staleSince.Some? :: Max(0, now - ms[t].staleSince.value)
  }

  /** What these markets add when they are no longer followed. */
  ghost function Spent(ms: Markets, now: int): BookTime {
    BookTime(Total(Since(ms, now)), Total(StaleSince(ms, now)))
  }

  ghost function Part(ms: Markets, ts: set<Ticker>): Markets {
    map t | t in ts && t in ms :: ms[t]
  }

  ghost function TimeNext(b: BookTime, ms: Markets, r: Record): BookTime {
    match r.content
    case Snapshot(t, _, _, _, _) =>
      if t in ms && ms[t].staleSince.Some? then b.(stale := b.stale + (r.wall - ms[t].staleSince.value)) else b
    case Command(c) => b.Plus(Spent(Part(ms, LeftBy(ms, c)), r.wall))
    case _ => b
  }

  ghost function TimeAfter(b: BookTime, recs: seq<Record>): BookTime {
    if recs == [] then b else
        TimeNext(TimeAfter(b, recs[..|recs| - 1]), MarketsAfter(recs[..|recs| - 1]), recs[|recs| - 1])
  }

  /** With what is still followed at the end of the segment. */
  ghost function TimeAtEnd(b: BookTime, recs: seq<Record>): BookTime {
    if recs == [] then b else TimeAfter(b, recs).Plus(Spent(MarketsAfter(recs), recs[|recs| - 1].wall))
  }

  /** The wall clock did not go back. */
  ghost predicate Steady(recs: seq<Record>) {
    forall i, j :: 0 <= i < j < |recs| ==> recs[i].wall <= recs[j].wall
  }

  ghost function StaleMarkets(ms: Markets): set<Ticker> {
    set t | t in ms && ms[t].staleSince.Some?
  }

  /** The time between records, once for each market followed meanwhile. */
  ghost function FollowedNs(recs: seq<Record>): int {
    if |recs| < 2 then 0 else
      var init := recs[..|recs| - 1];
      FollowedNs(init) + (recs[|recs| - 1].wall - init[|init| - 1].wall) * |MarketsAfter(init).Keys|
  }

  /** The time between records, once for each market stale meanwhile. */
  ghost function StaleNs(recs: seq<Record>): int {
    if |recs| < 2 then 0 else
      var init := recs[..|recs| - 1];
      StaleNs(init) + (recs[|recs| - 1].wall - init[|init| - 1].wall) * |StaleMarkets(MarketsAfter(init))|
  }

  ghost predicate Past(ms: Markets, now: int) {
    forall t :: t in ms ==> ms[t].since <= now && (ms[t].staleSince.Some? ==> ms[t].staleSince.value <= now)
  }

  lemma {:induction false} MarketsArePast(recs: seq<Record>)
    requires recs != [] && Steady(recs)
    ensures Past(MarketsAfter(recs), recs[|recs| - 1].wall)
  {
    var init := recs[..|recs| - 1];
    if init != [] {
      MarketsArePast(init);
      assert init[|init| - 1].wall <= recs[|recs| - 1].wall;
    }
  }

  lemma CardKeys<K, V>(m: map<K, V>)
    ensures |m| == |m.Keys|
  {
  }

  lemma TimePasses(ms: Markets, now: int, later: int)
    requires Past(ms, now) && now <= later
    ensures Spent(ms, later) == BookTime(Spent(ms, now).observed + (later - now) * |ms.Keys|,
                                         Spent(ms, now).stale + (later - now) * |StaleMarkets(ms)|)
  {
    TotalShifted(Since(ms, now), Since(ms, later), later - now);
    TotalShifted(StaleSince(ms, now), StaleSince(ms, later), later - now);
    CardKeys(Since(ms, now));
    CardKeys(StaleSince(ms, now));
    assert Since(ms, now).Keys == ms.Keys && StaleSince(ms, now).Keys == StaleMarkets(ms);
  }

  lemma SeenSpends(ms: Markets, t: Ticker, sid: Key, now: int)
    ensures Spent(Seen(ms, t, sid, now), now) == Spent(ms, now)
  {
    if t !in ms {
      var ns := Seen(ms, t, sid, now);
      TotalPut(Since(ms, now), t, 0);
      assert Since(ns, now) == Since(ms, now)[t := 0];
      assert StaleSince(ns, now) == StaleSince(ms, now);
    }
  }

  lemma FreshenedSpends(ms: Markets, t: Ticker, now: int)
    requires t in ms && Past(ms, now)
    ensures var f := Spent(Freshened(ms, t), now); var s := Spent(ms, now);
            f.observed == s.observed
            && f.stale == s.stale - (if ms[t].staleSince.Some? then now - ms[t].staleSince.value else 0)
  {
    var ns := Freshened(ms, t);
    assert Since(ns, now) == Since(ms, now);
    if ms[t].staleSince.Some? {
      TotalWithout(StaleSince(ms, now), t);
      assert StaleSince(ns, now) == StaleSince(ms, now) - {t};
    } else {
      assert StaleSince(ns, now) == StaleSince(ms, now);
    }
  }

  lemma StalledSpends(ms: Markets, sid: Key, now: int)
    ensures Spent(StalledOn(ms, sid, now), now) == Spent(ms, now)
  {
    assert Since(StalledOn(ms, sid, now), now) == Since(ms, now);
    TotalGrown(StaleSince(ms, now), StaleSince(StalledOn(ms, sid, now), now));
  }

  lemma LeavingObserved(ms: Markets, gone: set<Ticker>, now: int)
    requires gone <= ms.Keys
    ensures Spent(Part(ms, gone), now).observed + Spent(ms - gone, now).observed == Spent(ms, now).observed
  {
    var all := Since(ms, now);
    TotalParts(all, gone);
    assert (map t | t in gone :: all[t]) == Since(Part(ms, gone), now);
    assert all - gone == Since(ms - gone, now);
  }

  lemma LeavingStale(ms: Markets, gone: set<Ticker>, now: int)
    requires gone <= ms.Keys
    ensures Spent(Part(ms, gone), now).stale + Spent(ms - gone, now).stale == Spent(ms, now).stale
  {
    var all := StaleSince(ms, now);
    var stale := gone * all.Keys;
    TotalParts(all, stale);
    assert (map t | t in stale :: all[t]) == StaleSince(Part(ms, gone), now);
    assert all - stale == StaleSince(ms - gone, now);
  }

  lemma LeavingSpends(b: BookTime, ms: Markets, gone: set<Ticker>, now: int)
    requires gone <= ms.Keys
    ensures b.Plus(Spent(Part(ms, gone), now)).Plus(Spent(ms - gone, now)) == b.Plus(Spent(ms, now))
  {
    LeavingObserved(ms, gone, now);
    LeavingStale(ms, gone, now);
  }

  lemma SnapshotSpends(b: BookTime, ms: Markets, t: Ticker, sid: Key, now: int)
    requires Past(ms, now)
    ensures var more := if t in ms && ms[t].staleSince.Some? then now - ms[t].staleSince.value else 0;
            BookTime(b.observed, b.stale + more).Plus(Spent(Freshened(Seen(ms, t, sid, now), t), now)) ==
                b.Plus(Spent(ms, now))
  {
    SeenSpends(ms, t, sid, now);
    FreshenedSpends(Seen(ms, t, sid, now), t, now);
  }

  /** A record moves time from what is running to what is added, and makes none. */
  lemma RecordSpends(b: BookTime, ms: Markets, r: Record)
    requires Past(ms, r.wall)
    ensures TimeNext(b, ms, r).Plus(Spent(MarketsNext(ms, r), r.wall)) == b.Plus(Spent(ms, r.wall))
  {
    match r.content
    case Delta(t, sid, _, _, _, _) => SeenSpends(ms, t, sid, r.wall);
    case Snapshot(t, sid, _, _, _) => SnapshotSpends(b, ms, t, sid, r.wall);
    case Gap(sid, _, _) => StalledSpends(ms, sid, r.wall);
    case Command(c) => LeavingSpends(b, ms, LeftBy(ms, c), r.wall);
    case _ => assert MarketsNext(ms, r) == ms;
  }

  /** Observed time is the time each market was followed and stale time the time its book was stale,
      measured between records, when the wall clock does not go back. */
  lemma {:induction false} TimeIsMeasured(b: BookTime, recs: seq<Record>)
    requires Steady(recs)
    ensures TimeAtEnd(b, recs) == b.Plus(BookTime(FollowedNs(recs), StaleNs(recs)))
  {
    if recs != [] {
      var init, r := recs[..|recs| - 1], recs[|recs| - 1];
      var ms := MarketsAfter(init);
      TimeIsMeasured(b, init);
      if init != [] {
        var w := init[|init| - 1].wall;
        assert w <= r.wall;
        MarketsArePast(init);
        TimePasses(ms, w, r.wall);
      } else {
        assert Since(ms, r.wall) == map[] && StaleSince(ms, r.wall) == map[];
      }
      RecordSpends(TimeAfter(b, init), ms, r);
    }
  }

  lemma MoreOf(d: int, a: nat, b: nat)
    requires 0 <= d && a <= b
    ensures 0 <= d * a <= d * b
  {
  }

  /** Stale time never exceeds observed time while the wall clock does not go back. */
  lemma {:induction false} StaleWithinFollowed(recs: seq<Record>)
    requires Steady(recs)
    ensures 0 <= StaleNs(recs) <= FollowedNs(recs)
  {
    if |recs| >= 2 {
      var init := recs[..|recs| - 1];
      StaleWithinFollowed(init);
      Subset(StaleMarkets(MarketsAfter(init)), MarketsAfter(init).Keys);
      MoreOf(recs[|recs| - 1].wall - init[|init| - 1].wall, |StaleMarkets(MarketsAfter(init))|,
          |MarketsAfter(init).Keys|);
    }
  }

  /** Over every run of a segment with a steady wall clock, stale market time stays within observed time. */
  lemma StaleWithinObserved(b: BookTime, recs: seq<Record>)
    requires Steady(recs) && 0 <= b.stale <= b.observed
    ensures 0 <= TimeAtEnd(b, recs).stale <= TimeAtEnd(b, recs).observed
  {
    TimeIsMeasured(b, recs);
    StaleWithinFollowed(recs);
  }

  /** A clock that goes back can break it: a book observed for no time is stale for ten nanoseconds. */
  lemma ClockBackStalesMore(t: Ticker, sid: Key, conn: Key)
    ensures var s := Snapshot(t, sid, 0, [], []);
            TimeAtEnd(BookTime(0, 0),
                [Record(conn, 10, 0, s), Record(conn, 0, 1, Gap(sid, 1, 2)), Record(conn, 10, 2, s)]) == BookTime(0, 10)
  {
    var s := Snapshot(t, sid, 0, [], []);
    var recs := [Record(conn, 10, 0, s), Record(conn, 0, 1, Gap(sid, 1, 2)), Record(conn, 10, 2, s)];
    var one, two := recs[..1], recs[..2];
    assert one[..0] == [] && two[..1] == one && recs[..2] == two;
    assert MarketsAfter(one) == map[t := Market(sid, 10, None)];
    assert MarketsAfter(two) == map[t := Market(sid, 10, Some(0))];
    assert MarketsAfter(recs) == map[t := Market(sid, 10, None)];
    assert TimeAfter(BookTime(0, 0), one) == BookTime(0, 0);
    assert TimeAfter(BookTime(0, 0), two) == BookTime(0, 0);
    assert TimeAfter(BookTime(0, 0), recs) == BookTime(0, 10);
    TotalZeros(Since(MarketsAfter(recs), 10));
    assert StaleSince(MarketsAfter(recs), 10) == map[];
  }

  // ------------------------------------------------------------------ why a snapshot arrived

  datatype Reason = Initial | Resync | Reconnect

  /** The segment's first record opens a connection; otherwise it continues one. */
  predicate Opens(recs: seq<Record>) {
    recs != [] && recs[0].content.Connection?
    && (recs[0].content.happening.Opened? || recs[0].content.happening.Errored?)
  }

  type Requests = map<Key, set<Ticker>>

  function AskedOn(requests: Requests, sid: Key): set<Ticker> {
    if sid in requests then requests[sid] else {}
  }

  /** Snapshots asked for by commands and not seen since. */
  function RequestsNext(requests: Requests, x: Content): Requests {
    match x
    case Command(GetSnapshot(sid, ts)) => requests[sid := AskedOn(requests, sid) + Elems(ts)]
    case Snapshot(t, sid, _, _, _) => if sid in requests then requests[sid := requests[sid] - {t}] else requests
    case _ => requests
  }

  function RequestsAfter(recs: seq<Record>): Requests {
    if recs == [] then map[] else RequestsNext(RequestsAfter(recs[..|recs| - 1]), recs[|recs| - 1].content)
  }

  function SnapshottedAfter(recs: seq<Record>): set<(Key, Ticker)> {
    if recs == [] then {} else
      var x := recs[|recs| - 1].content;
      SnapshottedAfter(recs[..|recs| - 1]) + (if x.Snapshot? then {(x.sid, x.ticker)} else {})
  }

  /** `_snapshot_reason`. */
  function ReasonFrom(
      requests: Requests, snapshotted: set<(Key, Ticker)>, reconnected: bool, sid: Key, t: Ticker): Reason
  {
    if t in AskedOn(requests, sid) then Resync
    else if (sid, t) in snapshotted then Resync
    else if reconnected then Reconnect
    else Initial
  }

  function ReasonFor(recs: seq<Record>, afterLost: bool, sid: Key, t: Ticker): Reason {
    ReasonFrom(RequestsAfter(recs), SnapshottedAfter(recs), Opens(recs) && afterLost, sid, t)
  }

  predicate IsSnapshotOf(x: Content, sid: Key, t: Ticker) {
    x.Snapshot? && x.sid == sid && x.ticker == t
  }

  predicate Asks(x: Content, sid: Key, t: Ticker) {
    x.Command? && x.command.GetSnapshot? && x.command.sid == sid && t in x.command.tickers
  }

  /** Some record already brought this snapshot or asked for it. */
  predicate SnapshotBefore(recs: seq<Record>, sid: Key, t: Ticker) {
    exists k :: 0 <= k < |recs| && (IsSnapshotOf(recs[k].content, sid, t) || Asks(recs[k].content, sid, t))
  }

  lemma SnapshotBeforeNext(recs: seq<Record>, sid: Key, t: Ticker)
    requires recs != []
    ensures SnapshotBefore(recs, sid, t) <==>
              (SnapshotBefore(recs[..|recs| - 1], sid, t)
               || IsSnapshotOf(recs[|recs| - 1].content, sid, t) || Asks(recs[|recs| - 1].content, sid, t))
  {
    var init := recs[..|recs| - 1];
    if SnapshotBefore(init, sid, t) {
      var k :| 0 <= k < |init| && (IsSnapshotOf(init[k].content, sid, t) || Asks(init[k].content, sid, t));
      assert recs[k] == init[k];
    }
    if SnapshotBefore(recs, sid, t) {
      var k :| 0 <= k < |recs| && (IsSnapshotOf(recs[k].content, sid, t) || Asks(recs[k].content, sid, t));
      assert k < |init| ==> recs[k] == init[k];
    }
  }

  lemma {:induction false} AskedOrSeen(recs: seq<Record>, sid: Key, t: Ticker)
    ensures SnapshotBefore(recs, sid, t)
            <==> t in AskedOn(RequestsAfter(recs), sid) || (sid, t) in SnapshottedAfter(recs)
  {
    if recs != [] {
      AskedOrSeen(recs[..|recs| - 1], sid, t);
      SnapshotBeforeNext(recs, sid, t);
    }
  }

  /** A snapshot is a resynchronization exactly when an earlier record of the segment brought one of the same
      market on the same subscription or asked for it, whether or not the request was answered meanwhile. */
  lemma ReasonByHistory(recs: seq<Record>, afterLost: bool, sid: Key, t: Ticker)
    ensures ReasonFor(recs, afterLost, sid, t) ==
              if SnapshotBefore(recs, sid, t) then Resync else if Opens(recs) && afterLost then Reconnect else Initial
  {
    AskedOrSeen(recs, sid, t);
  }

  // ------------------------------------------------------------------ rows

  /** A row of a table: a delta, a snapshot cell with its reason, a gap with the wall time it was resolved at,
      or a row of a table whose columns nothing here depends on. */
  datatype Row =
    | DeltaRow(event: Replay.Event)
    | SnapshotRow(row: Replay.Row, reason: Reason)
    | GapRow(event: Replay.Event, expected: int, resolved: Option<int>)
    | TradeRow(detail: Key) | LifecycleRow(lifecycle: LifecycleType, detail: Key) | AuditRow(detail: Key)

  /** A row and the record it came from. */
  datatype Emitted = Emitted(place: Place, row: Row)

  function DeltaEvent(r: Record): Replay.Event
    requires r.content.Delta?
  {
    var x := r.content;
    Replay.Event(r.wall, r.mono, x.seqNo, Replay.Delta(x.ticker, r.conn, x.sid, x.side, x.price, x.delta))
  }

  function SnapshotEvent(r: Record): (e: Replay.Event)
    requires r.content.Snapshot?
    ensures e.change.Snapshot?
  {
    var x := r.content;
    Replay.Event(r.wall, r.mono, x.seqNo, Replay.Snapshot(x.ticker, r.conn, x.sid, x.bids, x.asks))
  }

  function GapEvent(r: Record): Replay.Event
    requires r.content.Gap?
  {
    Replay.Event(r.wall, r.mono, r.content.got, Replay.Gap(r.conn, r.content.sid))
  }

  /** `waiting` are the staled books not yet snapshotted; never empty. */
  datatype Pending = Pending(index: nat, event: Replay.Event, expected: int, sid: Key, waiting: set<Ticker>)

  function HeldOn(ms: Markets, sid: Key): set<Ticker> {
    set t | t in ms && ms[t].sid == sid
  }

  /** What a snapshot leaves of a pending gap. */
  function Left(p: Pending, sid: Key, t: Ticker): seq<Pending> {
    if p.sid != sid then [p] else if p.waiting - {t} == {} then [] else [p.(waiting := p.waiting - {t})]
  }

  function StillPending(ps: seq<Pending>, sid: Key, t: Ticker): seq<Pending> {
    if ps == [] then [] else StillPending(ps[..|ps| - 1], sid, t) + Left(ps[|ps| - 1], sid, t)
  }

  function GapRowOf(name: Key, p: Pending, resolved: Option<int>): Emitted {
    Emitted(Place(name, p.index), GapRow(p.event, p.expected, resolved))
  }

  /** The row of a pending gap that a snapshot resolves. */
  function Freed(name: Key, p: Pending, sid: Key, t: Ticker, wall: int): seq<Emitted> {
    if p.sid == sid && p.waiting - {t} == {} then [GapRowOf(name, p, Some(wall))] else []
  }

  function Resolved(name: Key, ps: seq<Pending>, sid: Key, t: Ticker, wall: int): seq<Emitted> {
    if ps == [] then [] else Resolved(name, ps[..|ps| - 1], sid, t, wall) + Freed(name, ps[|ps| - 1], sid, t, wall)
  }

  function Unresolved(name: Key, ps: seq<Pending>): seq<Emitted> {
    if ps == [] then [] else Unresolved(name, ps[..|ps| - 1]) + [GapRowOf(name, ps[|ps| - 1], None)]
  }

  function PendingNext(ps: seq<Pending>, staled: set<Ticker>, index: nat, r: Record): seq<Pending> {
    match r.content
    case Snapshot(t, sid, _, _, _) => StillPending(ps, sid, t)
    case Gap(sid, expected, _) =>
      if staled == {} then ps else ps + [Pending(index, GapEvent(r), expected, sid, staled)]
    case _ => ps
  }

  function PendingAfter(recs: seq<Record>): seq<Pending> {
    if recs == [] then [] else
      var init := recs[..|recs| - 1];
      PendingNext(PendingAfter(init), StaledBy(init, recs[|recs| - 1]), |init|, recs[|recs| - 1])
  }

  function Stamped(place: Place, rows: seq<Replay.Row>, reason: Reason): seq<Emitted> {
    if rows == [] then [] else
      Stamped(place, rows[..|rows| - 1], reason) + [Emitted(place, SnapshotRow(rows[|rows| - 1], reason))]
  }

  /** A segment: its name, and whether the connection's last one ended with the connection lost. */
  datatype Start = Start(name: Key, afterLost: bool)

  /** The one row of a record that is neither a snapshot nor a gap, if it has one. */
  function PlainRow(r: Record): (rows: seq<Row>)
    ensures |rows| <= 1
  {
    match r.content
    case Delta(_, _, _, _, _, _) => [DeltaRow(DeltaEvent(r))]
    case Trade(detail) => [TradeRow(detail)]
    case Lifecycle(l, detail) => [LifecycleRow(l, detail)]
    case Audited(detail, _, _) => [AuditRow(detail)]
    case _ => []
  }

  /** The books a gap stales. */
  function StaledIn(ms: Markets, r: Record): set<Ticker> {
    if r.content.Gap? then HeldOn(ms, r.content.sid) else {}
  }

  function StaledBy(before: seq<Record>, r: Record): set<Ticker> {
    StaledIn(MarketsAfter(before), r)
  }

  /** The record's own rows; a gap that stales no book has its row at once. */
  function OwnRows(place: Place, r: Record, reason: Reason, staled: set<Ticker>): seq<Emitted> {
    match r.content
    case Snapshot(_, _, _, _, _) => Stamped(place, Replay.RowsOf(SnapshotEvent(r)), reason)
    case Gap(_, expected, _) => if staled == {} then [Emitted(place, GapRow(GapEvent(r), expected, None))] else []
    case _ => if PlainRow(r) == [] then [] else [Emitted(place, PlainRow(r)[0])]
  }

  function ReasonIn(requests: Requests, snapshotted: set<(Key, Ticker)>, reconnected: bool, r: Record): Reason {
    if r.content.Snapshot? then ReasonFrom(requests, snapshotted, reconnected, r.content.sid, r.content.ticker) else
        Initial
  }

  function ReasonOf(s: Start, before: seq<Record>, r: Record): Reason {
    ReasonIn(RequestsAfter(before), SnapshottedAfter(before), Opens(before) && s.afterLost, r)
  }

  /** The rows of the gaps a record resolves. */
  function ResolvedBy(s: Start, ps: seq<Pending>, r: Record): seq<Emitted> {
    if r.content.Snapshot? then Resolved(s.name, ps, r.content.sid, r.content.ticker, r.wall) else []
  }

  /** The rows one record emits; the rows of gaps it resolves come after its own. */
  function Emits(s: Start, before: seq<Record>, r: Record): seq<Emitted> {
    OwnRows(Place(s.name, |before|), r, ReasonOf(s, before, r), StaledBy(before, r))
        + ResolvedBy(s, PendingAfter(before), r)
  }

  function RowsAfter(s: Start, recs: seq<Record>): seq<Emitted> {
    if recs == [] then [] else RowsAfter(s, recs[..|recs| - 1]) + Emits(s, recs[..|recs| - 1], recs[|recs| - 1])
  }

  /** Everything a segment emits: gaps still waiting at its end leave unresolved. */
  function SegmentRows(s: Start, recs: seq<Record>): seq<Emitted> {
    RowsAfter(s, recs) + Unresolved(s.name, PendingAfter(recs))
  }

  // ------------------------------------------------------------------ what each record's rows are

  function RowsAt(es: seq<Emitted>, place: Place): seq<Row> {
    if es == [] then [] else
        RowsAt(es[..|es| - 1], place) + (if es[|es| - 1].place == place then [es[|es| - 1].row] else [])
  }

  ghost predicate SnapshottedSince(recs: seq<Record>, i: nat, sid: Key, t: Ticker) {
    exists k :: i < k < |recs| && IsSnapshotOf(recs[k].content, sid, t)
  }

  /** The markets a gap staled that have not been snapshotted on its subscription since. */
  ghost function StillWaiting(recs: seq<Record>, i: nat): set<Ticker>
    requires i < |recs| && recs[i].content.Gap?
  {
    var sid := recs[i].content.sid;
    set t | t in HeldOn(MarketsAfter(recs[..i]), sid) && !SnapshottedSince(recs, i, sid, t)
  }

  /** The wall time of the record that left nothing waiting on the gap at `i`: the snapshot of its last market. */
  ghost function ResolvedAt(recs: seq<Record>, i: nat): Option<int>
    requires i < |recs| && recs[i].content.Gap?
  {
    if |recs| == i + 1 then None
    else if ResolvedAt(recs[..|recs| - 1], i).Some? then ResolvedAt(recs[..|recs| - 1], i)
    else if StillWaiting(recs[..|recs| - 1], i) != {} && StillWaiting(recs, i) == {} then Some(recs[|recs| - 1].wall)
    else None
  }

  ghost function CellsOf(rows: seq<Replay.Row>, reason: Reason): seq<Row> {
    if rows == [] then [] else CellsOf(rows[..|rows| - 1], reason) + [SnapshotRow(rows[|rows| - 1], reason)]
  }

  /** The rows of a record other than a gap, after the records before it. */
  ghost function MeantBy(s: Start, before: seq<Record>, r: Record): seq<Row> {
    match r.content
    case Snapshot(t, sid, _, _, _) =>
      CellsOf(Replay.RowsOf(SnapshotEvent(r)),
              if SnapshotBefore(before, sid, t) then Resync else
                  if Opens(before) && s.afterLost then Reconnect else Initial)
    case _ => PlainRow(r)
  }

  /** The rows that stand for the record at `i`. */
  ghost function Meant(s: Start, recs: seq<Record>, i: nat): seq<Row>
    requires i < |recs|
  {
    if recs[i].content.Gap? then [GapRow(GapEvent(recs[i]), recs[i].content.expected, ResolvedAt(recs, i))]
    else MeantBy(s, recs[..i], recs[i])
  }

  lemma {:induction false} RowsAtJoin(a: seq<Emitted>, b: seq<Emitted>, place: Place)
    ensures RowsAt(a + b, place) == RowsAt(a, place) + RowsAt(b, place)
  {
    if b == [] {
      assert a + b == a;
    } else {
      RowsAtJoin(a, b[..|b| - 1], place);
      assert (a + b)[..|a + b| - 1] == a + b[..|b| - 1];
    }
  }

  lemma {:induction false} StampedAt(place: Place, rows: seq<Replay.Row>, reason: Reason, at: Place)
    ensures RowsAt(Stamped(place, rows, reason), at) == if place == at then CellsOf(rows, reason) else []
  {
    if rows != [] {
      var init := Stamped(place, rows[..|rows| - 1], reason);
      StampedAt(place, rows[..|rows| - 1], reason, at);
      RowsAtJoin(init, [Emitted(place, SnapshotRow(rows[|rows| - 1], reason))], at);
    }
  }

  /** The pending gaps from one record. */
  function PendingOf(ps: seq<Pending>, i: nat): seq<Pending> {
    if ps == [] then [] else PendingOf(ps[..|ps| - 1], i) + (if ps[|ps| - 1].index == i then [ps[|ps| - 1]] else [])
  }

  lemma SinglePending(name: Key, p: Pending, sid: Key, t: Ticker, wall: int)
    ensures StillPending([p], sid, t) == Left(p, sid, t)
    ensures Resolved(name, [p], sid, t, wall) == Freed(name, p, sid, t, wall)
    ensures StillPending([], sid, t) == [] && Resolved(name, [], sid, t, wall) == []
    ensures Unresolved(name, [p]) == [GapRowOf(name, p, None)]
  {
    assert [p][..0] == [];
  }

  lemma OneRow(e: Emitted, place: Place)
    ensures RowsAt([e], place) == if e.place == place then [e.row] else []
  {
    assert [e][..0] == [];
  }

  lemma PendingOfSnoc(ps: seq<Pending>, p: Pending, i: nat)
    ensures PendingOf(ps + [p], i) == if p.index == i then PendingOf(ps, i) + [p] else PendingOf(ps, i)
  {
    assert (ps + [p])[..|ps|] == ps;
  }

  lemma StillSnoc(ps: seq<Pending>, p: Pending, sid: Key, t: Ticker)
    ensures StillPending(ps + [p], sid, t) == StillPending(ps, sid, t) + Left(p, sid, t)
  {
    assert (ps + [p])[..|ps|] == ps;
  }

  lemma {:induction false} StillPendingOf(ps: seq<Pending>, sid: Key, t: Ticker, i: nat)
    ensures PendingOf(StillPending(ps, sid, t), i) == StillPending(PendingOf(ps, i), sid, t)
  {
    if ps != [] {
      var init, p := ps[..|ps| - 1], ps[|ps| - 1];
      assert ps == init + [p];
      StillPendingOf(init, sid, t, i);
      PendingOfSnoc(init, p, i);
      if Left(p, sid, t) != [] {
        PendingOfSnoc(StillPending(init, sid, t), Left(p, sid, t)[0], i);
      } else {
        assert StillPending(ps, sid, t) == StillPending(init, sid, t);
      }
      if p.index == i { StillSnoc(PendingOf(init, i), p, sid, t); }
    }
  }

  lemma FreedSnoc(name: Key, ps: seq<Pending>, p: Pending, sid: Key, t: Ticker, wall: int, at: Place)
    ensures RowsAt(Resolved(name, ps + [p], sid, t, wall), at) ==
            RowsAt(Resolved(name, ps, sid, t, wall), at) + RowsAt(Freed(name, p, sid, t, wall), at)
  {
    assert (ps + [p])[..|ps|] == ps;
    RowsAtJoin(Resolved(name, ps, sid, t, wall), Freed(name, p, sid, t, wall), at);
  }

  lemma {:induction false} ResolvedOf(name: Key, ps: seq<Pending>, sid: Key, t: Ticker, wall: int, i: nat)
    ensures RowsAt(Resolved(name, ps, sid, t, wall), Place(name, i)) ==
            RowsAt(Resolved(name, PendingOf(ps, i), sid, t, wall), Place(name, i))
  {
    if ps != [] {
      var init, p := ps[..|ps| - 1], ps[|ps| - 1];
      assert ps == init + [p];
      ResolvedOf(name, init, sid, t, wall, i);
      PendingOfSnoc(init, p, i);
      FreedSnoc(name, init, p, sid, t, wall, Place(name, i));
      if p.index == i {
        FreedSnoc(name, PendingOf(init, i), p, sid, t, wall, Place(name, i));
      } else {
        assert RowsAt(Freed(name, p, sid, t, wall), Place(name, i)) == [];
      }
    }
  }

  lemma UnresolvedSnoc(name: Key, ps: seq<Pending>, p: Pending, at: Place)
    ensures RowsAt(Unresolved(name, ps + [p]), at) ==
            RowsAt(Unresolved(name, ps), at) + RowsAt([GapRowOf(name, p, None)], at)
  {
    assert (ps + [p])[..|ps|] == ps;
    RowsAtJoin(Unresolved(name, ps), [GapRowOf(name, p, None)], at);
  }

  lemma {:induction false} UnresolvedOf(name: Key, ps: seq<Pending>, i: nat)
    ensures RowsAt(Unresolved(name, ps), Place(name, i)) == RowsAt(Unresolved(name, PendingOf(ps, i)), Place(name, i))
  {
    if ps != [] {
      var init, p := ps[..|ps| - 1], ps[|ps| - 1];
      assert ps == init + [p];
      UnresolvedOf(name, init, i);
      PendingOfSnoc(init, p, i);
      UnresolvedSnoc(name, init, p, Place(name, i));
      if p.index == i {
        UnresolvedSnoc(name, PendingOf(init, i), p, Place(name, i));
      } else {
        assert RowsAt([GapRowOf(name, p, None)], Place(name, i)) == [];
      }
    }
  }

  lemma SnapshottedNext(init: seq<Record>, r: Record, i: nat, sid: Key, t: Ticker)
    requires i < |init|
    ensures SnapshottedSince(init + [r], i, sid, t)
            <==> SnapshottedSince(init, i, sid, t) || IsSnapshotOf(r.content, sid, t)
  {
    var recs := init + [r];
    if SnapshottedSince(init, i, sid, t) {
      var k :| i < k < |init| && IsSnapshotOf(init[k].content, sid, t);
      assert recs[k] == init[k];
    }
    if IsSnapshotOf(r.content, sid, t) { assert recs[|init|] == r; }
  }

  lemma WaitingNext(recs: seq<Record>, i: nat)
    requires i + 1 < |recs| && recs[i].content.Gap?
    ensures var x := recs[|recs| - 1].content;
            StillWaiting(recs, i) ==
                StillWaiting(recs[..|recs| - 1],
                i) - (if x.Snapshot? && x.sid == recs[i].content.sid then {x.ticker} else {})
  {
    var init, sid := recs[..|recs| - 1], recs[i].content.sid;
    assert recs[..i] == init[..i];
    forall t
      ensures SnapshottedSince(recs, i, sid, t)
              <==> SnapshottedSince(init, i, sid, t) || IsSnapshotOf(recs[|recs| - 1].content, sid, t)
    {
      SnapshottedNext(init, recs[|recs| - 1], i, sid, t);
      assert recs == init + [recs[|recs| - 1]];
    }
  }

  lemma FirstWaiting(init: seq<Record>, r: Record)
    requires r.content.Gap?
    ensures StillWaiting(init + [r], |init|) == StaledBy(init, r)
  {
    assert (init + [r])[..|init|] == init;
  }

  lemma OwnRowsAt(place: Place, r: Record, reason: Reason, staled: set<Ticker>, at: Place)
    ensures RowsAt(OwnRows(place, r, reason, staled), at) ==
              if place != at then []
              else if r.content.Snapshot? then CellsOf(Replay.RowsOf(SnapshotEvent(r)), reason)
              else if !r.content.Gap? then PlainRow(r)
              else if staled == {} then [GapRow(GapEvent(r), r.content.expected, None)] else []
  {
    if r.content.Snapshot? {
      StampedAt(place, Replay.RowsOf(SnapshotEvent(r)), reason, at);
    } else if OwnRows(place, r, reason, staled) != [] {
      OneRow(OwnRows(place, r, reason, staled)[0], at);
    }
  }

  lemma ResolvedByOf(s: Start, ps: seq<Pending>, r: Record, i: nat)
    ensures RowsAt(ResolvedBy(s, ps, r), Place(s.name, i)) ==
            RowsAt(ResolvedBy(s, PendingOf(ps, i), r), Place(s.name, i))
  {
    if r.content.Snapshot? { ResolvedOf(s.name, ps, r.content.sid, r.content.ticker, r.wall, i); }
  }

  lemma EmitsAt(s: Start, before: seq<Record>, r: Record, i: nat)
    ensures RowsAt(Emits(s, before, r), Place(s.name, i)) ==
              RowsAt(OwnRows(Place(s.name, |before|), r, ReasonOf(s, before, r), StaledBy(before, r)), Place(s.name, i))
              + RowsAt(ResolvedBy(s, PendingOf(PendingAfter(before), i), r), Place(s.name, i))
  {
    RowsAtJoin(OwnRows(Place(s.name, |before|), r, ReasonOf(s, before, r), StaledBy(before, r)),
        ResolvedBy(s, PendingAfter(before), r), Place(s.name, i));
    ResolvedByOf(s, PendingAfter(before), r, i);
  }

  lemma {:induction false} NotPendingYet(ps: seq<Pending>, i: nat)
    requires PendingBelow(ps, i)
    ensures PendingOf(ps, i) == []
  {
    if ps != [] { NotPendingYet(ps[..|ps| - 1], i); }
  }

  lemma {:induction false} NoRowsYet(es: seq<Emitted>, name: Key, i: nat)
    requires Within(es, name, i)
    ensures RowsAt(es, Place(name, i)) == []
  {
    if es != [] { NoRowsYet(es[..|es| - 1], name, i); }
  }

  lemma PendingStep(init: seq<Record>, r: Record, i: nat)
    requires i != |init|
    ensures PendingOf(PendingAfter(init + [r]), i) ==
              if r.content.Snapshot?
                  then StillPending(PendingOf(PendingAfter(init), i), r.content.sid, r.content.ticker)
              else PendingOf(PendingAfter(init), i)
  {
    assert (init + [r])[..|init|] == init;
    PendingNextOf(PendingAfter(init), StaledBy(init, r), |init|, r, i);
  }

  lemma PendingNextOf(ps: seq<Pending>, staled: set<Ticker>, index: nat, r: Record, i: nat)
    ensures var own := PendingOf(ps, i);
            PendingOf(PendingNext(ps, staled, index, r), i) ==
              if r.content.Snapshot? then StillPending(own, r.content.sid, r.content.ticker)
              else if r.content.Gap? && staled != {} && i == index
                  then own + [Pending(index, GapEvent(r), r.content.expected, r.content.sid, staled)]
              else own
  {
    match r.content
    case Snapshot(t, sid, _, _, _) => StillPendingOf(ps, sid, t, i);
    case Gap(sid, expected, _) => PendingOfSnoc(ps, Pending(index, GapEvent(r), expected, sid, staled), i);
    case _ =>
  }

  ghost predicate Awaits(recs: seq<Record>, i: nat)
    requires i < |recs|
  {
    recs[i].content.Gap? && StillWaiting(recs, i) != {}
  }

  ghost function AwaitedGap(recs: seq<Record>, i: nat): Pending
    requires i < |recs| && recs[i].content.Gap?
  {
    Pending(i, GapEvent(recs[i]), recs[i].content.expected, recs[i].content.sid, StillWaiting(recs, i))
  }

  /** The gap at `i` is pending exactly while it awaits snapshots, and exactly for those. */
  ghost predicate PendingStands(recs: seq<Record>, i: nat)
    requires i < |recs|
  {
    PendingOf(PendingAfter(recs), i) == if Awaits(recs, i) then [AwaitedGap(recs, i)] else []
  }

  /** The rows of the record at `i` are out, unless its gap still awaits snapshots. */
  ghost predicate RowsStand(s: Start, recs: seq<Record>, i: nat)
    requires i < |recs|
  {
    RowsAt(RowsAfter(s, recs), Place(s.name, i)) == if Awaits(recs, i) then [] else Meant(s, recs, i)
  }

  ghost predicate Unanswered(recs: seq<Record>, i: nat)
    requires i < |recs|
  {
    Awaits(recs, i) ==> ResolvedAt(recs, i).None?
  }

  lemma MeantFirst(s: Start, init: seq<Record>, r: Record)
    ensures Meant(s, init + [r], |init|) ==
              if r.content.Gap? then [GapRow(GapEvent(r), r.content.expected, None)] else MeantBy(s, init, r)
  {
    var recs := init + [r];
    assert recs[..|init|] == init && recs[|init|] == r;
  }

  lemma PendsAtFirst(init: seq<Record>, r: Record)
    ensures PendingStands(init + [r], |init|)
    ensures Awaits(init + [r], |init|) <==> r.content.Gap? && StaledBy(init, r) != {}
  {
    assert (init + [r])[..|init|] == init && (init + [r])[|init|] == r;
    PendingWithin(init);
    NotPendingYet(PendingAfter(init), |init|);
    PendingNextOf(PendingAfter(init), StaledBy(init, r), |init|, r, |init|);
    if r.content.Gap? { FirstWaiting(init, r); }
  }

  lemma MeantByOwn(s: Start, init: seq<Record>, r: Record)
    requires !r.content.Gap?
    ensures MeantBy(s, init, r) ==
            if r.content.Snapshot? then CellsOf(Replay.RowsOf(SnapshotEvent(r)), ReasonOf(s, init, r)) else PlainRow(r)
  {
    if r.content.Snapshot? { ReasonByHistory(init, s.afterLost, r.content.sid, r.content.ticker); }
  }

  lemma EmitsAtFirst(s: Start, init: seq<Record>, r: Record)
    ensures RowsAt(Emits(s, init, r), Place(s.name, |init|)) ==
            if Awaits(init + [r], |init|) then [] else Meant(s, init + [r], |init|)
  {
    EmitsAt(s, init, r, |init|);
    PendingWithin(init);
    NotPendingYet(PendingAfter(init), |init|);
    OwnRowsAt(Place(s.name, |init|), r, ReasonOf(s, init, r), StaledBy(init, r), Place(s.name, |init|));
    PendsAtFirst(init, r);
    MeantFirst(s, init, r);
    if !r.content.Gap? { MeantByOwn(s, init, r); }
  }

  lemma RowsGrow(s: Start, init: seq<Record>, r: Record, place: Place)
    ensures RowsAt(RowsAfter(s, init + [r]), place) ==
            RowsAt(RowsAfter(s, init), place) + RowsAt(Emits(s, init, r), place)
  {
    assert (init + [r])[..|init|] == init;
    RowsAtJoin(RowsAfter(s, init), Emits(s, init, r), place);
  }

  lemma RowsStandAtFirst(s: Start, init: seq<Record>, r: Record)
    ensures RowsStand(s, init + [r], |init|) && Unanswered(init + [r], |init|)
  {
    EmitsAtFirst(s, init, r);
    RowsAreWithin(s, init);
    NoRowsYet(RowsAfter(s, init), s.name, |init|);
    RowsGrow(s, init, r, Place(s.name, |init|));
  }

  /** The snapshot the record brings on the subscription of the gap at `i`. */
  ghost function BroughtFor(init: seq<Record>, r: Record, i: nat): set<Ticker>
    requires i < |init| && init[i].content.Gap?
  {
    if r.content.Snapshot? && r.content.sid == init[i].content.sid then {r.content.ticker} else {}
  }

  lemma WaitingStep(init: seq<Record>, r: Record, i: nat)
    requires i < |init| && init[i].content.Gap?
    ensures StillWaiting(init + [r], i) == StillWaiting(init, i) - BroughtFor(init, r, i)
    ensures ResolvedAt(init + [r], i) == if ResolvedAt(init, i).Some? then ResolvedAt(init, i)
                                         else if Awaits(init, i) && !Awaits(init + [r], i) then Some(r.wall) else None
  {
    WaitingNext(init + [r], i);
    assert (init + [r])[..|init|] == init;
  }

  lemma PendingStandsNext(init: seq<Record>, r: Record, i: nat)
    requires i < |init| && PendingStands(init, i)
    ensures PendingStands(init + [r], i)
  {
    PendingStep(init, r, i);
    if init[i].content.Gap? { WaitingStep(init, r, i); }
    if r.content.Snapshot? && Awaits(init, i) {
      SinglePending(Key(0), AwaitedGap(init, i), r.content.sid, r.content.ticker, 0);
      LeftOfAwaited(init, r, i);
    } else if Awaits(init, i) {
      assert StillWaiting(init + [r], i) == StillWaiting(init, i);
    }
  }

  lemma LeftOfAwaited(init: seq<Record>, r: Record, i: nat)
    requires i < |init| && Awaits(init, i) && r.content.Snapshot?
    ensures Left(AwaitedGap(init, i), r.content.sid, r.content.ticker) ==
            if Awaits(init + [r], i) then [AwaitedGap(init + [r], i)] else []
  {
    WaitingStep(init, r, i);
    if r.content.sid != init[i].content.sid { assert StillWaiting(init + [r], i) == StillWaiting(init, i); }
  }

  /** The rows of the gap at `i` that the next record brings out. */
  lemma RowsBrought(s: Start, init: seq<Record>, r: Record, i: nat)
    requires i < |init| && PendingStands(init, i)
    ensures RowsAt(Emits(s, init, r), Place(s.name, i)) ==
              if Awaits(init, i) && !Awaits(init + [r], i)
                  then [GapRow(GapEvent(init[i]), init[i].content.expected, Some(r.wall))] else []
  {
    EmitsAt(s, init, r, i);
    OwnRowsAt(Place(s.name, |init|), r, ReasonOf(s, init, r), StaledBy(init, r), Place(s.name, i));
    if init[i].content.Gap? { WaitingStep(init, r, i); }
    if r.content.Snapshot? && Awaits(init, i) {
      var p := AwaitedGap(init, i);
      SinglePending(s.name, p, r.content.sid, r.content.ticker, r.wall);
      OneRow(GapRowOf(s.name, p, Some(r.wall)), Place(s.name, i));
    }
  }

  lemma MeantStays(s: Start, init: seq<Record>, r: Record, i: nat)
    requires i < |init|
    ensures Meant(s, init + [r], i) ==
              if init[i].content.Gap?
                  then [GapRow(GapEvent(init[i]), init[i].content.expected, ResolvedAt(init + [r], i))] else
                  Meant(s, init, i)
  {
    assert (init + [r])[..i] == init[..i] && (init + [r])[i] == init[i];
  }

  lemma RowsStandNext(s: Start, init: seq<Record>, r: Record, i: nat)
    requires i < |init| && PendingStands(init, i) && RowsStand(s, init, i) && Unanswered(init, i)
    ensures RowsStand(s, init + [r], i) && Unanswered(init + [r], i)
  {
    RowsGrow(s, init, r, Place(s.name, i));
    RowsBrought(s, init, r, i);
    MeantStays(s, init, r, i);
    if init[i].content.Gap? { WaitingStep(init, r, i); }
  }

  lemma {:induction false} EveryGapPends(recs: seq<Record>, i: nat)
    requires i < |recs|
    ensures PendingStands(recs, i)
  {
    var init, r := recs[..|recs| - 1], recs[|recs| - 1];
    assert recs == init + [r];
    if i < |init| {
      EveryGapPends(init, i);
      PendingStandsNext(init, r, i);
    } else {
      PendsAtFirst(init, r);
    }
  }

  lemma {:induction false} EveryRecordStands(s: Start, recs: seq<Record>, i: nat)
    requires i < |recs|
    ensures RowsStand(s, recs, i) && Unanswered(recs, i)
  {
    var init, r := recs[..|recs| - 1], recs[|recs| - 1];
    assert recs == init + [r];
    if i < |init| {
      EveryRecordStands(s, init, i);
      EveryGapPends(init, i);
      RowsStandNext(s, init, r, i);
    } else {
      RowsStandAtFirst(s, init, r);
    }
  }

  /** Every record's rows are in the tables exactly once: none for a record that did not decode or is not baked,
      one for a delta, trade, lifecycle message or audit, the cells of a snapshot, and for a gap exactly one,
      resolved at the snapshot of its last waiting market or left unresolved. */
  lemma RowsAreMeant(s: Start, recs: seq<Record>, i: nat)
    requires i < |recs|
    ensures RowsAt(SegmentRows(s, recs), Place(s.name, i)) == Meant(s, recs, i)
  {
    EveryRecordStands(s, recs, i);
    EveryGapPends(recs, i);
    RowsAtJoin(RowsAfter(s, recs), Unresolved(s.name, PendingAfter(recs)), Place(s.name, i));
    UnresolvedOf(s.name, PendingAfter(recs), i);
    if Awaits(recs, i) {
      SinglePending(s.name, AwaitedGap(recs, i), Key(0), Key(0), 0);
      OneRow(GapRowOf(s.name, AwaitedGap(recs, i), None), Place(s.name, i));
    }
  }

  ghost predicate Within(es: seq<Emitted>, name: Key, n: nat) {
    forall k :: 0 <= k < |es| ==> es[k].place.segment == name && es[k].place.index < n
  }

  ghost predicate PendingBelow(ps: seq<Pending>, n: nat) {
    forall k :: 0 <= k < |ps| ==> ps[k].index < n
  }

  lemma {:induction false} StillBelow(ps: seq<Pending>, sid: Key, t: Ticker, n: nat)
    requires PendingBelow(ps, n)
    ensures PendingBelow(StillPending(ps, sid, t), n)
  {
    if ps != [] { StillBelow(ps[..|ps| - 1], sid, t, n); }
  }

  lemma {:induction false} PendingWithin(recs: seq<Record>)
    ensures PendingBelow(PendingAfter(recs), |recs|)
  {
    if recs != [] {
      var init, x := recs[..|recs| - 1], recs[|recs| - 1].content;
      PendingWithin(init);
      if x.Snapshot? { StillBelow(PendingAfter(init), x.sid, x.ticker, |init|); }
    }
  }

  lemma {:induction false} UnresolvedWithin(name: Key, ps: seq<Pending>, n: nat)
    requires PendingBelow(ps, n)
    ensures Within(Unresolved(name, ps), name, n)
  {
    if ps != [] { UnresolvedWithin(name, ps[..|ps| - 1], n); }
  }

  lemma {:induction false} ResolvedWithin(name: Key, ps: seq<Pending>, sid: Key, t: Ticker, wall: int, n: nat)
    requires PendingBelow(ps, n)
    ensures Within(Resolved(name, ps, sid, t, wall), name, n)
  {
    if ps != [] { ResolvedWithin(name, ps[..|ps| - 1], sid, t, wall, n); }
  }

  lemma {:induction false} StampedWithin(place: Place, rows: seq<Replay.Row>, reason: Reason, n: nat)
    requires place.index < n
    ensures Within(Stamped(place, rows, reason), place.segment, n)
  {
    if rows != [] { StampedWithin(place, rows[..|rows| - 1], reason, n); }
  }

  lemma {:induction false} RowsAreWithin(s: Start, recs: seq<Record>)
    ensures Within(RowsAfter(s, recs), s.name, |recs|)
  {
    if recs != [] {
      var init, r := recs[..|recs| - 1], recs[|recs| - 1];
      RowsAreWithin(s, init);
      if r.content.Snapshot? {
        PendingWithin(init);
        ResolvedWithin(s.name, PendingAfter(init), r.content.sid, r.content.ticker, r.wall, |recs|);
        StampedWithin(Place(s.name, |init|), Replay.RowsOf(SnapshotEvent(r)),
            ReasonFor(init, s.afterLost, r.content.sid, r.content.ticker), |recs|);
      }
    }
  }

  lemma WaitingShrinks(recs: seq<Record>, i: nat, a: nat)
    requires i < a <= |recs| && recs[i].content.Gap?
    ensures StillWaiting(recs, i) <= StillWaiting(recs[..a], i)
  {
    assert recs[..a][..i] == recs[..i];
  }

  /** The record at `j` left none of the gap's markets waiting. */
  ghost predicate Completes(recs: seq<Record>, i: nat, j: nat)
    requires i < j < |recs| && recs[i].content.Gap?
  {
    StillWaiting(recs[..j], i) != {} && StillWaiting(recs[..j + 1], i) == {}
  }

  ghost predicate CompletedAt(recs: seq<Record>, i: nat, wall: int)
    requires i < |recs| && recs[i].content.Gap?
  {
    exists j :: i < j < |recs| && Completes(recs, i, j) && recs[j].wall == wall
  }

  lemma CompletedBefore(recs: seq<Record>, i: nat, wall: int)
    requires i + 1 < |recs| && recs[i].content.Gap? && !Completes(recs, i, |recs| - 1)
    ensures CompletedAt(recs, i, wall) <==> CompletedAt(recs[..|recs| - 1], i, wall)
  {
    var init := recs[..|recs| - 1];
    forall j | i < j < |init| ensures Completes(init, i, j) <==> Completes(recs, i, j) { SameCompletes(recs, i, j); }
    if CompletedAt(recs, i, wall) {
      var j :| i < j < |recs| && Completes(recs, i, j) && recs[j].wall == wall;
      assert init[j] == recs[j];
    }
  }

  lemma SameCompletes(recs: seq<Record>, i: nat, j: nat)
    requires i < j < |recs| - 1 && recs[i].content.Gap?
    ensures Completes(recs[..|recs| - 1], i, j) <==> Completes(recs, i, j)
  {
    assert recs[..|recs| - 1][..j] == recs[..j] && recs[..|recs| - 1][..j + 1] == recs[..j + 1];
  }

  lemma CompletedLast(recs: seq<Record>, i: nat, wall: int)
    requires i + 1 < |recs| && recs[i].content.Gap? && Completes(recs, i, |recs| - 1)
    ensures CompletedAt(recs, i, wall) <==> wall == recs[|recs| - 1].wall
    ensures !CompletedAt(recs[..|recs| - 1], i, wall)
  {
    var init := recs[..|recs| - 1];
    forall j | i < j < |init| ensures !Completes(recs, i, j) && !Completes(init, i, j) {
      assert init[..j + 1] == recs[..j + 1];
      WaitingShrinks(init, i, j + 1);
    }
  }

  /** A gap is resolved at `wall` exactly when some later record, received then, was the one that left none of
      its markets waiting. */
  lemma {:induction false} ResolvedWhen(recs: seq<Record>, i: nat, wall: int)
    requires i < |recs| && recs[i].content.Gap?
    ensures ResolvedAt(recs, i) == Some(wall) <==> CompletedAt(recs, i, wall)
  {
    if i + 1 < |recs| {
      var init := recs[..|recs| - 1];
      assert recs[..|recs| - 1 + 1] == recs;
      ResolvedWhen(init, i, wall);
      if Completes(recs, i, |recs| - 1) {
        if ResolvedAt(init, i).Some? {
          ResolvedWhen(init, i, ResolvedAt(init, i).value);
          CompletedLast(recs, i, ResolvedAt(init, i).value);
        }
        CompletedLast(recs, i, wall);
      } else {
        CompletedBefore(recs, i, wall);
      }
    }
  }

  // ------------------------------------------------------------------ connection spans

  datatype Opening = Opening(at: int, openedHere: bool)

  function OpeningNext(o: Option<Opening>, r: Record): Option<Opening> {
    match r.content
    case Connection(Opened) => Some(Opening(r.wall, true))
    case Connection(Closed(_)) => None
    case _ => o
  }

  /** A segment that does not begin by opening a connection continues one open since the hour began. */
  function OpeningBefore(hourStart: int, before: seq<Record>, r: Record): Option<Opening>
    decreases |before|, 1
  {
    if before != [] then OpeningAfter(hourStart, before)
    else if Opens([r]) then None
    else Some(Opening(hourStart, false))
  }

  function OpeningAfter(hourStart: int, recs: seq<Record>): Option<Opening>
    requires recs != []
    decreases |recs|, 0
  {
    var init, r := recs[..|recs| - 1], recs[|recs| - 1];
    OpeningNext(OpeningBefore(hourStart, init, r), r)
  }

  function SpanTo(conn: Key, o: Opening, end: int, closes: bool): Uptime.Span {
    Uptime.Span(conn, o.at, Max(o.at, end), o.openedHere, closes)
  }

  function SpansNext(conn: Key, o: Option<Opening>, r: Record): seq<Uptime.Span> {
    match r.content
    case Connection(Opened) => if o.Some? then [SpanTo(conn, o.value, r.wall, false)] else []
    case Connection(Closed(_)) => if o.Some? then [SpanTo(conn, o.value, r.wall, true)] else []
    case _ => []
  }

  function SpansAfter(conn: Key, hourStart: int, recs: seq<Record>): seq<Uptime.Span> {
    if recs == [] then [] else
      var init, r := recs[..|recs| - 1], recs[|recs| - 1];
      SpansAfter(conn, hourStart, init) + SpansNext(conn, OpeningBefore(hourStart, init, r), r)
  }

  /** The span still open when the segment ends. */
  function LastSpan(conn: Key, hourStart: int, recs: seq<Record>): seq<Uptime.Span> {
    if recs == [] || OpeningAfter(hourStart, recs).None? then []
    else [SpanTo(conn, OpeningAfter(hourStart, recs).value, recs[|recs| - 1].wall, false)]
  }

  function SegmentSpans(conn: Key, hourStart: int, recs: seq<Record>): seq<Uptime.Span> {
    SpansAfter(conn, hourStart, recs) + LastSpan(conn, hourStart, recs)
  }

  ghost predicate Spanned(spans: seq<Uptime.Span>, p: int) {
    exists i :: 0 <= i < |spans| && spans[i].start <= p < spans[i].end
  }

  /** The connection was open at `p`: before the first record if the segment continues it, and otherwise
      between two records if it was open after the first of them. */
  ghost predicate WasOpen(hourStart: int, recs: seq<Record>, p: int)
    requires recs != []
    decreases |recs|
  {
    var init, r := recs[..|recs| - 1], recs[|recs| - 1];
    if init == [] then !Opens(recs) && hourStart <= p < r.wall
    else WasOpen(hourStart, init, p) || (OpeningAfter(hourStart, init).Some? && init[|init| - 1].wall <= p < r.wall)
  }

  lemma SpannedJoin(a: seq<Uptime.Span>, b: seq<Uptime.Span>, p: int)
    ensures Spanned(a + b, p) <==> Spanned(a, p) || Spanned(b, p)
  {
    if Spanned(a, p) {
      var i :| 0 <= i < |a| && a[i].start <= p < a[i].end;
      assert (a + b)[i] == a[i];
    }
    if Spanned(b, p) {
      var i :| 0 <= i < |b| && b[i].start <= p < b[i].end;
      assert (a + b)[|a| + i] == b[i];
    }
  }

  lemma SpannedOne(x: Uptime.Span, p: int)
    ensures Spanned([x], p) <==> x.start <= p < x.end
  {
    assert [x][0] == x;
  }

  lemma {:induction false} OpeningIsPast(hourStart: int, recs: seq<Record>)
    requires recs != [] && Steady(recs) && hourStart <= recs[0].wall
    ensures OpeningAfter(hourStart, recs).Some? ==> OpeningAfter(hourStart, recs).value.at <= recs[|recs| - 1].wall
  {
    var init := recs[..|recs| - 1];
    if init != [] { OpeningIsPast(hourStart, init); }
  }

  ghost predicate Running(o: Option<Opening>, p: int, wall: int) {
    o.Some? && o.value.at <= p < wall
  }

  lemma RecordSpans(conn: Key, o: Option<Opening>, r: Record, p: int)
    requires o.Some? ==> o.value.at <= r.wall
    ensures Spanned(SpansNext(conn, o, r), p) || Running(OpeningNext(o, r), p, r.wall) <==> Running(o, p, r.wall)
  {
    if SpansNext(conn, o, r) != [] { SpannedOne(SpansNext(conn, o, r)[0], p); }
  }

  lemma LastSpanIs(conn: Key, hourStart: int, recs: seq<Record>, p: int)
    requires recs != []
             && (OpeningAfter(hourStart, recs).Some? ==>
                 OpeningAfter(hourStart, recs).value.at <= recs[|recs| - 1].wall)
    ensures Spanned(LastSpan(conn, hourStart, recs), p)
            <==> Running(OpeningAfter(hourStart, recs), p, recs[|recs| - 1].wall)
  {
    if LastSpan(conn, hourStart, recs) != [] { SpannedOne(LastSpan(conn, hourStart, recs)[0], p); }
  }

  lemma {:induction false} SpansSoFar(conn: Key, hourStart: int, recs: seq<Record>, p: int)
    requires recs != [] && Steady(recs) && hourStart <= recs[0].wall
    ensures Spanned(SpansAfter(conn, hourStart, recs), p)
            || Running(OpeningAfter(hourStart, recs), p, recs[|recs| - 1].wall)
            <==> WasOpen(hourStart, recs, p)
  {
    var init, r := recs[..|recs| - 1], recs[|recs| - 1];
    var o := OpeningBefore(hourStart, init, r);
    if init != [] {
      SpansSoFar(conn, hourStart, init, p);
      OpeningIsPast(hourStart, init);
    } else {
      assert [r] == recs;
    }
    RecordSpans(conn, o, r, p);
    SpannedJoin(SpansAfter(conn, hourStart, init), SpansNext(conn, o, r), p);
  }

  /** A segment's spans cover exactly the instants at which its connection was open. */
  lemma SpansSayWhenOpen(conn: Key, hourStart: int, recs: seq<Record>, p: int)
    requires recs != [] && Steady(recs) && hourStart <= recs[0].wall
    ensures Spanned(SegmentSpans(conn, hourStart, recs), p) <==> WasOpen(hourStart, recs, p)
  {
    SpansSoFar(conn, hourStart, recs, p);
    OpeningIsPast(hourStart, recs);
    LastSpanIs(conn, hourStart, recs, p);
    SpannedJoin(SpansAfter(conn, hourStart, recs), LastSpan(conn, hourStart, recs), p);
  }

  // ------------------------------------------------------------------ other facts of the hour

  datatype Facts = Facts(sleeps: set<Uptime.Interval>, gaps: nat, audits: map<Audit.Outcome, nat>, mismatched: nat,
      dropped: nat)

  function HappeningFacts(f: Facts, h: Happening, wall: int): Facts {
    match h
    case ClockJump(Some(w), Some(m)) => if w > m
        then f.(sleeps := f.sleeps + {Uptime.Interval(wall - (w - m), wall)}) else f
    case WriterOverflow(Some(n)) => f.(dropped := f.dropped + n)
    case _ => f
  }

  function FactsNext(f: Facts, r: Record): Facts {
    match r.content
    case Gap(_, _, _) => f.(gaps := f.gaps + 1)
    case Audited(_, outcome, mismatched) =>
      f.(audits := Bumped(f.audits, outcome),
         mismatched :=
             f.mismatched + (if outcome != Audit.Undecidable && mismatched.Some? then mismatched.value else 0))
    case Connection(h) => HappeningFacts(f, h, r.wall)
    case _ => f
  }

  function FactsAfter(f: Facts, recs: seq<Record>): Facts {
    if recs == [] then f else FactsNext(FactsAfter(f, recs[..|recs| - 1]), recs[|recs| - 1])
  }

  /** The last opening, closing or error decides whether the connection was lost. */
  function LastEvent(recs: seq<Record>): Option<Happening> {
    if recs == [] then None else
      match recs[|recs| - 1].content
      case Connection(h) => if h.Opened? || h.Closed? || h.Errored? then Some(h) else LastEvent(recs[..|recs| - 1])
      case _ => LastEvent(recs[..|recs| - 1])
  }

  predicate Lost(recs: seq<Record>) {
    LastEvent(recs) == Some(Closed(false))
  }

  /** Gaps and audits counted are the records baked as such. */
  lemma {:induction false} FactsAreCounted(f: Facts, recs: seq<Record>)
    ensures FactsAfter(f, recs).gaps == f.gaps + WithOutcome(recs, Baked(AsGap))
    ensures Total(FactsAfter(f, recs).audits) == Total(f.audits) + WithOutcome(recs, Baked(AsAudit))
  {
    if recs != [] {
      var init, x := recs[..|recs| - 1], recs[|recs| - 1].content;
      FactsAreCounted(f, init);
      if x.Audited? { BumpedTotal(FactsAfter(f, init).audits, x.outcome); }
    }
  }

  // ------------------------------------------------------------------ an hour of segments

  datatype Segment = Segment(name: Key, conn: Key, records: seq<Record>)

  /** Whether the connection's last segment so far ended with it lost. */
  function LostBefore(segments: seq<Segment>, conn: Key): bool {
    if segments == [] then false
    else if segments[|segments| - 1].conn == conn then Lost(segments[|segments| - 1].records)
    else LostBefore(segments[..|segments| - 1], conn)
  }

  function StartOf(before: seq<Segment>, x: Segment): Start {
    Start(x.name, LostBefore(before, x.conn))
  }

  function HourRows(segments: seq<Segment>): seq<Emitted> {
    if segments == [] then [] else
      var init, x := segments[..|segments| - 1], segments[|segments| - 1];
      HourRows(init) + SegmentRows(StartOf(init, x), x.records)
  }

  lemma {:induction false} RowsElsewhere(es: seq<Emitted>, name: Key, n: nat, place: Place)
    requires Within(es, name, n) && place.segment != name
    ensures RowsAt(es, place) == []
  {
    if es != [] { RowsElsewhere(es[..|es| - 1], name, n, place); }
  }

  /** No rows come from anywhere else. */
  lemma SegmentRowsWithin(s: Start, recs: seq<Record>)
    ensures Within(SegmentRows(s, recs), s.name, |recs|)
  {
    RowsAreWithin(s, recs);
    PendingWithin(recs);
    UnresolvedWithin(s.name, PendingAfter(recs), |recs|);
  }

  lemma {:induction false} NoRowsOfOthers(segments: seq<Segment>, place: Place)
    requires forall k :: 0 <= k < |segments| ==> segments[k].name != place.segment
    ensures RowsAt(HourRows(segments), place) == []
  {
    if segments != [] {
      var init, x := segments[..|segments| - 1], segments[|segments| - 1];
      NoRowsOfOthers(init, place);
      SegmentRowsWithin(StartOf(init, x), x.records);
      RowsElsewhere(SegmentRows(StartOf(init, x), x.records), x.name, |x.records|, place);
      RowsAtJoin(HourRows(init), SegmentRows(StartOf(init, x), x.records), place);
    }
  }

  ghost predicate NamesDistinct(segments: seq<Segment>) {
    forall j, k :: 0 <= j < k < |segments| ==> segments[j].name != segments[k].name
  }

  /** Over a whole hour, too, each record of each segment has exactly the rows it means. */
  lemma {:induction false} HourRowsAreMeant(segments: seq<Segment>, k: nat, i: nat)
    requires NamesDistinct(segments) && k < |segments| && i < |segments[k].records|
    ensures RowsAt(HourRows(segments), Place(segments[k].name, i)) ==
            Meant(StartOf(segments[..k], segments[k]), segments[k].records, i)
  {
    var init, x := segments[..|segments| - 1], segments[|segments| - 1];
    var place := Place(segments[k].name, i);
    var last := SegmentRows(StartOf(init, x), x.records);
    RowsAtJoin(HourRows(init), last, place);
    if k < |init| {
      HourRowsAreMeant(init, k, i);
      assert init[..k] == segments[..k];
      SegmentRowsWithin(StartOf(init, x), x.records);
      RowsElsewhere(last, x.name, |x.records|, place);
    } else {
      NoRowsOfOthers(init, place);
      RowsAreMeant(StartOf(init, x), x.records, i);
    }
  }
}
