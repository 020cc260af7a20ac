/** Runs on which what `Feed` and `Subscription` exclude does happen: each exclusion is needed. */
module Hazards {
  import opened Prelude
  import opened OrderBook
  import Bus
  import opened Planner
  import opened Subscription
  import opened Feed
  import opened Exchange

  // ------------------------------------------------------------------ opening a connection for one group

  lemma {:induction false} SortedFew(k: Key)
    ensures Sorted({}) == [] && Sorted({k}) == [k]
  {
    assert IsSorting([], {});
    SortingIsUnique([], Sorted({}), {});
    assert IsSorting([k], {k});
    SortingIsUnique([k], Sorted({k}), {k});
  }

  /** A group small enough is subscribed to in one piece. */
  lemma {:induction false} FirstPieces(g: Group, n: nat)
    requires n >= 1 && |g.tickers| <= n
    ensures SplitAll(Diff(map[], map[g.id := g]), n) == [AddGroup(g)]
  {
    var p, q: Plan := map[], map[g.id := g];
    SortedFew(g.id);
    assert p.Keys == {} && q.Keys == {g.id};
    assert [g.id][..0] == [] && AddGroups([g.id], p, q) == [AddGroup(g)];
    assert Diff(p, q) == [AddGroup(g)];
    var split := SplitEach([AddGroup(g)], n);
    assert split == [[AddGroup(g)]] && split[..0] == [];
    assert Concat(split) == [] + [AddGroup(g)];
  }

  /** What is pending before the group's own subscribe: the firehose's, if there is one. */
  function AskedFirst(cfg: Config): map<Key, Subscription.Pending> {
    if cfg.firehoseChannels == {} then map[] else map[Key(1) := Subscription.Pending(FIREHOSE, cfg.firehoseChannels)]
  }

  /** The connection has subscribed for its group, and the firehose if there is one, and waits. */
  ghost predicate Asked(cfg: Config, c: Conn, g: Group, id: Key) {
    && c.desired == c.applied == Some(g) && c.subs == map[] && c.channelOf == map[] && !c.deferred
    && c.books == map[] && c.resyncing == map[] && c.lastSeq == map[]
    && c.pending == AskedFirst(cfg)[id := Subscription.Pending(g.id, cfg.groupChannels)]
    && id == (if cfg.firehoseChannels == {} then Key(1) else Key(2))
  }

  lemma {:induction false} OpenedFor(cfg: Config, g: Group)
    requires cfg.Valid() && ValidGroup(cfg, Some(g)) && |g.tickers| <= cfg.maxMarkets
    ensures var w := Opened(cfg, Some(g), map[]);
            Asked(cfg, w.conn, g, if cfg.firehoseChannels == {} then Key(1) else Key(2)) && w.history == map[]
  {
    var c := Connecting(Some(g), map[]);
    FirstPieces(g, cfg.maxMarkets);
    var asked := AskedFirehose(cfg, c);
    assert Pieces(cfg, c) == [AddGroup(g)] && [AddGroup(g)][1..] == [];
    assert RunPieces(cfg, asked, [AddGroup(g)]) == SentPiece(cfg, asked, AddGroup(g));
    assert c.books == map[];
  }

  /** The group's books have their sid; nothing about them is awaited but a reply to the firehose, if any. */
  ghost predicate Bound(c: Conn, g: Group, sid: Key) {
    && c.desired == c.applied == Some(g) && !c.deferred
    && c.subs == map[sid := Info(ORDERBOOK, g.id)] && c.channelOf == map[sid := ORDERBOOK]
  }

  function Accepting(id: Key, sid: Key, channel: Key): Frame {
    Frame(None, None, Feed.Subscribed(Some(id), sid, channel))
  }

  lemma {:induction false} BindsFirst(cfg: Config, c: Conn, g: Group, id: Key, sid: Key)
    requires cfg.Valid() && cfg.groupChannels == {ORDERBOOK} && Asked(cfg, c, g, id)
    ensures HonestFrame(c, Accepting(id, sid, ORDERBOOK))
    ensures var d := OnFrame(cfg, c, Accepting(id, sid, ORDERBOOK));
            && Bound(d, g, sid) && d.pending == c.pending - {id} && d.books == map[] && d.resyncing == map[]
            && d.lastSeq == map[]
  {
    assert {ORDERBOOK} - {ORDERBOOK} == {};
  }

  lemma {:induction false} OneStep(cfg: Config, desired: Option<Group>, steps: seq<Step>, s: Step)
    requires cfg.Valid() && Possible(cfg, Ran(cfg, desired, map[], steps), s)
    ensures Ran(cfg, desired, map[], steps + [s]) == Stepped(cfg, Ran(cfg, desired, map[], steps), s)
  {
    assert (steps + [s])[..|steps|] == steps;
  }

  lemma {:induction false} Hears(cfg: Config, g: Group, steps: seq<Step>, f: Frame) returns (more: seq<Step>)
    requires cfg.Valid() && HonestFrame(Ran(cfg, Some(g), map[], steps).conn, f)
    ensures more == steps + [Arrive(f)]
    ensures Ran(cfg, Some(g), map[], more).conn == OnFrame(cfg, Ran(cfg, Some(g), map[], steps).conn, f)
  {
    more := steps + [Arrive(f)];
    OneStep(cfg, Some(g), steps, Arrive(f));
  }

  lemma {:induction false} BoundAfterOne(cfg: Config, g: Group, sid: Key) returns (steps: seq<Step>)
    requires cfg.Valid() && cfg.groupChannels == {ORDERBOOK} && ValidGroup(cfg, Some(g))
             && |g.tickers| <= cfg.maxMarkets
    ensures var c := Ran(cfg, Some(g), map[], steps).conn;
            && Bound(c, g, sid) && c.books == map[] && c.resyncing == map[] && c.lastSeq == map[]
            && c.pending == AskedFirst(cfg)
  {
    var id := if cfg.firehoseChannels == {} then Key(1) else Key(2);
    OpenedFor(cfg, g);
    BindsFirst(cfg, Ran(cfg, Some(g), map[], []).conn, g, id, sid);
    steps := Hears(cfg, g, [], Accepting(id, sid, ORDERBOOK));
    assert AskedFirst(cfg)[id := Subscription.Pending(g.id, cfg.groupChannels)] - {id} == AskedFirst(cfg);
  }

  // ------------------------------------------------------------------ a reply that takes a group's only sid

  /** A connection that subscribed for a group and the firehose, and whose group was answered, waits for the
      firehose. If that reply names the group's sid, the applied group is left without a sid and without a
      subscribe that will bring one. */
  lemma {:induction false} ReplyStrandsGroup(cfg: Config, g: Group, sid: Key, channel: Key) returns (steps: seq<Step>)
    requires cfg.Valid() && BooksByGroup(cfg) && cfg.groupChannels == {ORDERBOOK} && channel in cfg.firehoseChannels
    requires ValidGroup(cfg, Some(g)) && |g.tickers| <= cfg.maxMarkets
    ensures var c := Ran(cfg, Some(g), map[], steps).conn;
            && Reachable(c) && Key(1) in c.pending && c.pending[Key(1)].group == FIREHOSE
            && channel in c.pending[Key(1)].channels
            && !Reachable(Answered(c, Key(1), sid, channel))
            && !Reachable(OnFrame(cfg, c, Accepting(Key(1), sid, channel)))
  {
    steps := BoundAfterOne(cfg, g, sid);
    TakesTheSid(cfg, Ran(cfg, Some(g), map[], steps).conn, g, sid, channel);
  }

  lemma {:induction false} TakesTheSid(cfg: Config, c: Conn, g: Group, sid: Key, channel: Key)
    requires cfg.Valid() && Bound(c, g, sid) && g.id != FIREHOSE && channel in cfg.firehoseChannels
    requires c.pending == map[Key(1) := Subscription.Pending(FIREHOSE, cfg.firehoseChannels)]
    ensures Reachable(c) && !Reachable(Answered(c, Key(1), sid, channel))
            && !Reachable(OnFrame(cfg, c, Accepting(Key(1), sid, channel)))
  {
    assert sid in SidsOf(c.subs, g.id);
    var d := Answered(c.(channelOf := c.channelOf[sid := channel]), Key(1), sid, channel);
    assert SidsOf(d.subs, g.id) == {} && SidsOf(Answered(c, Key(1), sid, channel).subs, g.id) == {};
  }

  // ------------------------------------------------------------------ a loss that goes unseen

  /** One sid carries the group's books and nothing awaits a reply. */
  ghost predicate Running(
      c: Conn, g: Group, sid: Key, books: Bus.Books, resyncing: map<Key, set<Ticker>>, last: Option<int>)
  {
    && Bound(c, g, sid) && c.pending == map[] && c.books == books && c.resyncing == resyncing
    && c.lastSeq == (if last.None? then map[] else map[sid := last.value])
  }

  function Update(sid: Key, n: int, body: Body): Frame {
    Frame(Some(sid), Some(n), body)
  }

  lemma {:induction false} SnapshotInOrder(
      cfg: Config, c: Conn, g: Group, sid: Key, books: Bus.Books, last: Option<int>, n: int, t: Ticker,
      bids: seq<Level>, asks: seq<Level>)
    requires cfg.Valid() && Running(c, g, sid, books, map[], last) && t in g.tickers && ValidSnapshot(bids, asks)
             && (last.Some? ==> n == last.value + 1)
    ensures Running(OnFrame(cfg, c, Update(sid, n, Snapshot(t, bids, asks))), g, sid,
            books[t := AfterSnapshot(EMPTY_BOOK, bids, asks)], map[], Some(n))
  {
    assert AfterSnapshot(Bus.BookOf(books, t), bids, asks) == AfterSnapshot(EMPTY_BOOK, bids, asks);
  }

  lemma {:induction false} DeltaInOrder(
      cfg: Config, c: Conn, g: Group, sid: Key, books: Bus.Books, n: int, t: Ticker, side: Side, price: Price,
      delta: int, resyncing: map<Key, set<Ticker>>)
    requires cfg.Valid() && Running(c, g, sid, books, resyncing, Some(n - 1)) && t in g.tickers && t in books
    requires DeltaVerdict(books[t], side, price, delta) != Broken
    ensures Running(OnFrame(cfg, c, Update(sid, n, Delta(t, side, price, delta))), g, sid,
            books[t := AfterDelta(books[t], side, price, delta)], resyncing, Some(n))
  {
  }

  /** A delta that breaks its book: the market's snapshot is awaited. */
  lemma {:induction false} DeltaBreaks(
      cfg: Config, c: Conn, g: Group, sid: Key, books: Bus.Books, n: int, u: Ticker, side: Side, price: Price,
      delta: int)
    requires cfg.Valid() && Running(c, g, sid, books, map[], Some(n - 1)) && u in g.tickers && u in books
    requires DeltaVerdict(books[u], side, price, delta) == Broken
    ensures Running(OnFrame(cfg, c, Update(sid, n, Delta(u, side, price, delta))), g, sid,
            books[u := AfterDelta(books[u], side, price, delta)], map[sid := {u}], Some(n))
  {
    assert {u} - {} == {u} && {} + {u} == {u};
  }

  /** The awaited snapshot is taken at whatever number it carries. */
  lemma {:induction false} SnapshotAwaited(
      cfg: Config, c: Conn, g: Group, sid: Key, books: Bus.Books, last: int, n: int, u: Ticker, bids: seq<Level>,
      asks: seq<Level>)
    requires cfg.Valid() && Running(c, g, sid, books, map[sid := {u}], Some(last)) && u in g.tickers
             && ValidSnapshot(bids, asks)
    ensures Running(OnFrame(cfg, c, Update(sid, n, Snapshot(u, bids, asks))), g, sid,
            books[u := AfterSnapshot(EMPTY_BOOK, bids, asks)], map[], Some(n))
  {
    assert {u} - {u} == {};
    assert AfterSnapshot(Bus.BookOf(books, u), bids, asks) == AfterSnapshot(EMPTY_BOOK, bids, asks);
  }

  lemma {:induction false} NothingIsBroken(price: Price)
    ensures ValidSnapshot([], []) && DeltaVerdict(AfterSnapshot(EMPTY_BOOK, [], []), Bid, price, -1) == Broken
  {
    assert MapOf([]) == map[];
  }

  /** One snapshot received on a connection just bound. */
  lemma {:induction false} FirstFresh(
      cfg: Config, g: Group, sid: Key, t: Ticker, bids: seq<Level>, asks: seq<Level>) returns (steps: seq<Step>)
    requires cfg.Valid() && cfg.groupChannels == {ORDERBOOK} && cfg.firehoseChannels == {} && ValidGroup(cfg, Some(g))
             && |g.tickers| <= cfg.maxMarkets
    requires t in g.tickers && ValidSnapshot(bids, asks)
    ensures Running(Ran(cfg, Some(g), map[], steps).conn, g, sid, map[t := AfterSnapshot(EMPTY_BOOK, bids, asks)],
            map[], Some(1))
  {
    var bound := BoundAfterOne(cfg, g, sid);
    SnapshotInOrder(cfg, Ran(cfg, Some(g), map[], bound).conn, g, sid, map[], None, 1, t, bids, asks);
    steps := Hears(cfg, g, bound, Update(sid, 1, Snapshot(t, bids, asks)));
    assert map[][t := AfterSnapshot(EMPTY_BOOK, bids, asks)] == map[t := AfterSnapshot(EMPTY_BOOK, bids, asks)];
  }

  lemma {:induction false} OtherComes(
      cfg: Config, g: Group, sid: Key, before: seq<Step>, books: Bus.Books, u: Ticker) returns (steps: seq<Step>)
    requires cfg.Valid() && u in g.tickers
             && Running(Ran(cfg, Some(g), map[], before).conn, g, sid, books, map[], Some(1))
    ensures Running(Ran(cfg, Some(g), map[], steps).conn, g, sid, books[u := AfterSnapshot(EMPTY_BOOK, [], [])], map[],
            Some(2))
  {
    NothingIsBroken(Key(0));
    SnapshotInOrder(cfg, Ran(cfg, Some(g), map[], before).conn, g, sid, books, Some(1), 2, u, [], []);
    steps := Hears(cfg, g, before, Update(sid, 2, Snapshot(u, [], [])));
  }

  lemma {:induction false} Breaks(
      cfg: Config, g: Group, sid: Key, before: seq<Step>, books: Bus.Books, u: Ticker) returns (steps: seq<Step>)
    requires cfg.Valid() && u in g.tickers && u in books && DeltaVerdict(books[u], Bid, Key(0), -1) == Broken
    requires Running(Ran(cfg, Some(g), map[], before).conn, g, sid, books, map[], Some(2))
    ensures Running(Ran(cfg, Some(g), map[], steps).conn, g, sid, books[u := AfterDelta(books[u], Bid, Key(0), -1)],
            map[sid := {u}], Some(3))
  {
    DeltaBreaks(cfg, Ran(cfg, Some(g), map[], before).conn, g, sid, books, 3, u, Bid, Key(0), -1);
    steps := Hears(cfg, g, before, Update(sid, 3, Delta(u, Bid, Key(0), -1)));
  }

  /** Another market's book comes and breaks: its snapshot is awaited. */
  lemma {:induction false} OtherBreaks(
      cfg: Config, g: Group, sid: Key, before: seq<Step>, books: Bus.Books, t: Ticker, u: Ticker)
      returns (steps: seq<Step>, after: Bus.Books)
    requires cfg.Valid() && u in g.tickers && t != u && t in books
    requires Running(Ran(cfg, Some(g), map[], before).conn, g, sid, books, map[], Some(1))
    ensures Running(Ran(cfg, Some(g), map[], steps).conn, g, sid, after, map[sid := {u}], Some(3))
    ensures t in after && after[t] == books[t]
  {
    var two := OtherComes(cfg, g, sid, before, books, u);
    var both := books[u := AfterSnapshot(EMPTY_BOOK, [], [])];
    NothingIsBroken(Key(0));
    assert both[u] == AfterSnapshot(EMPTY_BOOK, [], []);
    steps := Breaks(cfg, g, sid, two, both, u);
    after := both[u := AfterDelta(both[u], Bid, Key(0), -1)];
  }

  lemma {:induction false} DeltaChanges(b: BookState, side: Side, price: Price, delta: int)
    requires DeltaVerdict(b, side, price, delta) == Applied && delta != 0
    ensures !AfterDelta(b, side, price, delta).stale && AfterDelta(b, side, price, delta).levels != b.levels
  {
    AppliedCounts(b, side, price, delta);
  }

  lemma {:induction false} AppliedCounts(b: BookState, side: Side, price: Price, delta: int)
    requires DeltaVerdict(b, side, price, delta) == Applied
    ensures CountAt(SideOf(AfterDelta(b, side, price, delta).levels, side), price) ==
            CountAt(SideOf(b.levels, side), price) + delta
  {
  }

  /** The exclusion is needed. For every snapshot of `t` and every delta it takes that changes it: the same run
      with and without that delta, numbered as it was sent, while another market's snapshot is awaited. Both end
      with `t` fresh and the same baseline; without the delta the book is not what was sent. */
  lemma {:induction false} LossGoesUnseen(
      cfg: Config, g: Group, sid: Key, t: Ticker, u: Ticker, bids: seq<Level>, asks: seq<Level>, side: Side,
      price: Price, delta: int)
      returns (steps: seq<Step>, lost: Step, snapshot: Step)
    requires cfg.Valid() && cfg.groupChannels == {ORDERBOOK} && cfg.firehoseChannels == {} && ValidGroup(cfg, Some(g))
             && |g.tickers| <= cfg.maxMarkets
    requires t in g.tickers && u in g.tickers && t != u && ValidSnapshot(bids, asks)
    requires DeltaVerdict(AfterSnapshot(EMPTY_BOOK, bids, asks), side, price, delta) == Applied && delta != 0
    ensures lost == Arrive(Update(sid, 4, Delta(t, side, price, delta)))
            && snapshot == Arrive(Update(sid, 5, Snapshot(u, [], [])))
    ensures var whole, short := Ran(cfg, Some(g), map[], steps + [lost] + [snapshot]).conn,
            Ran(cfg, Some(g), map[], steps + [snapshot]).conn;
            && Bus.FreshIn(whole.books, t) && Bus.FreshIn(short.books, t) && whole.lastSeq == short.lastSeq
            && whole.books[t].levels != short.books[t].levels
  {
    var books;
    var b := AfterSnapshot(EMPTY_BOOK, bids, asks);
    NothingIsBroken(Key(0));
    var first := FirstFresh(cfg, g, sid, t, bids, asks);
    steps, books := OtherBreaks(cfg, g, sid, first, map[t := b], t, u);
    lost, snapshot := Arrive(Update(sid, 4, Delta(t, side, price, delta))), Arrive(Update(sid, 5, Snapshot(u, [], [])));
    WithoutIt(cfg, g, sid, t, u, steps, books);
    WithIt(cfg, g, sid, t, u, steps, books, side, price, delta);
    DeltaChanges(b, side, price, delta);
  }

  lemma {:induction false} WithoutIt(
      cfg: Config, g: Group, sid: Key, t: Ticker, u: Ticker, steps: seq<Step>, books: Bus.Books)
    requires cfg.Valid() && u in g.tickers && t != u && t in books
             && Running(Ran(cfg, Some(g), map[], steps).conn, g, sid, books, map[sid := {u}], Some(3))
    ensures var c := Ran(cfg, Some(g), map[], steps + [Arrive(Update(sid, 5, Snapshot(u, [], [])))]).conn;
            t in c.books && c.books[t] == books[t] && c.lastSeq == map[sid := 5]
  {
    NothingIsBroken(Key(0));
    SnapshotAwaited(cfg, Ran(cfg, Some(g), map[], steps).conn, g, sid, books, 3, 5, u, [], []);
    var more := Hears(cfg, g, steps, Update(sid, 5, Snapshot(u, [], [])));
  }

  lemma {:induction false} WithIt(
      cfg: Config, g: Group, sid: Key, t: Ticker, u: Ticker, steps: seq<Step>, books: Bus.Books, side: Side,
      price: Price, delta: int)
    requires cfg.Valid() && t in g.tickers && u in g.tickers && t != u && t in books
             && DeltaVerdict(books[t], side, price, delta) == Applied
    requires Running(Ran(cfg, Some(g), map[], steps).conn, g, sid, books, map[sid := {u}], Some(3))
    ensures var lost, last := Arrive(Update(sid, 4, Delta(t, side, price, delta))),
            Arrive(Update(sid, 5, Snapshot(u, [], [])));
            var c := Ran(cfg, Some(g), map[], steps + [lost] + [last]).conn;
            t in c.books && c.books[t] == AfterDelta(books[t], side, price, delta) && c.lastSeq == map[sid := 5]
  {
    NothingIsBroken(Key(0));
    DeltaInOrder(cfg, Ran(cfg, Some(g), map[], steps).conn, g, sid, books, 4, t, side, price, delta, map[sid := {u}]);
    var more := Hears(cfg, g, steps, Update(sid, 4, Delta(t, side, price, delta)));
    var moved := books[t := AfterDelta(books[t], side, price, delta)];
    SnapshotAwaited(cfg, Ran(cfg, Some(g), map[], more).conn, g, sid, moved, 4, 5, u, [], []);
    var end := Hears(cfg, g, more, Update(sid, 5, Snapshot(u, [], [])));
  }

  /** A snapshot frame that comes again after a later delta puts the old levels back, fresh. */
  lemma {:induction false} RepeatPutsBackOldLevels(
      cfg: Config, g: Group, sid: Key, t: Ticker, bids: seq<Level>, asks: seq<Level>, side: Side, price: Price,
      delta: int)
      returns (steps: seq<Step>, again: Step)
    requires cfg.Valid() && cfg.groupChannels == {ORDERBOOK} && cfg.firehoseChannels == {} && ValidGroup(cfg, Some(g))
             && |g.tickers| <= cfg.maxMarkets
    requires t in g.tickers && ValidSnapshot(bids, asks)
    requires DeltaVerdict(AfterSnapshot(EMPTY_BOOK, bids, asks), side, price, delta) == Applied && delta != 0
    ensures again == Arrive(Update(sid, 1, Snapshot(t, bids, asks)))
    ensures var before, after := Ran(cfg, Some(g), map[], steps).conn, Ran(cfg, Some(g), map[], steps + [again]).conn;
            && Bus.FreshIn(before.books, t)
            && before.books[t] == AfterDelta(AfterSnapshot(EMPTY_BOOK, bids, asks), side, price, delta)
            && Bus.FreshIn(after.books, t) && after.books[t].levels != before.books[t].levels
            && after.lastSeq == before.lastSeq == map[sid := 2]
  {
    var b := AfterSnapshot(EMPTY_BOOK, bids, asks);
    again := Arrive(Update(sid, 1, Snapshot(t, bids, asks)));
    var first := FirstFresh(cfg, g, sid, t, bids, asks);
    DeltaInOrder(cfg, Ran(cfg, Some(g), map[], first).conn, g, sid, map[t := b], 2, t, side, price, delta, map[]);
    steps := Hears(cfg, g, first, Update(sid, 2, Delta(t, side, price, delta)));
    DeltaChanges(b, side, price, delta);
    ComesAgain(cfg, Ran(cfg, Some(g), map[], steps).conn, g, sid, map[t := b][t := AfterDelta(b, side, price, delta)],
        t, bids, asks);
    var end := Hears(cfg, g, steps, again.frame);
  }

  lemma {:induction false} ComesAgain(
      cfg: Config, c: Conn, g: Group, sid: Key, books: Bus.Books, t: Ticker, bids: seq<Level>, asks: seq<Level>)
    requires cfg.Valid() && Running(c, g, sid, books, map[], Some(2)) && t in g.tickers && ValidSnapshot(bids, asks)
    ensures var d := OnFrame(cfg, c, Update(sid, 1, Snapshot(t, bids, asks)));
            && Bus.FreshIn(d.books, t) && d.books[t] == AfterSnapshot(EMPTY_BOOK, bids, asks)
            && d.lastSeq == map[sid := 2]
  {
    var f := Update(sid, 1, Snapshot(t, bids, asks));
    RepeatedSnapshotRevives(cfg, c, sid, f, 1);
    SnapshotApplied(cfg, c, f);
  }

  // ------------------------------------------------------------------ a merge that another channel does not share

  /** The group's subscribe awaits both its channels. */
  ghost predicate AwaitsBoth(cfg: Config, c: Conn, g: Group, desired: Group, sid: Key, known: bool, deferred: bool) {
    && c.desired == Some(desired) && c.applied == Some(g) && c.subs == map[] && c.deferred == deferred
    && c.channelOf == (if known then map[sid := ORDERBOOK] else map[]) && c.books == map[] && c.resyncing == map[]
    && c.pending == map[Key(1) := Subscription.Pending(g.id, cfg.groupChannels)]
  }

  function Announcing(sid: Key): Frame {
    Frame(None, None, Feed.Subscribed(None, sid, ORDERBOOK))
  }

  function Merging(sid: Key, members: set<Ticker>): Frame {
    Frame(Some(sid), None, Feed.Okay(Some(Key(1)), members))
  }

  lemma {:induction false} SidIsAnnounced(cfg: Config, c: Conn, g: Group, sid: Key, e: Server)
    requires cfg.Valid() && AwaitsBoth(cfg, c, g, g, sid, false, false)
    ensures HonestFrame(c, Announcing(sid)) && Agrees(c, Announcing(sid))
    ensures AwaitsBoth(cfg, OnFrame(cfg, c, Announcing(sid)), g, g, sid, true, false)
    ensures OnlyAsks(c, OnFrame(cfg, c, Announcing(sid))) && Replied(e, c, Announcing(sid)) == e
  {
  }

  lemma {:induction false} RegroupWaits(cfg: Config, c: Conn, g: Group, desired: Group, sid: Key)
    requires cfg.Valid() && AwaitsBoth(cfg, c, g, desired, sid, true, false)
    ensures AwaitsBoth(cfg, OnSetGroup(cfg, c), g, desired, sid, true, true) && OnlyAsks(c, OnSetGroup(cfg, c))
  {
  }

  /** The books' sid was merged and carries what is desired; the other channel is still awaited. */
  ghost predicate HalfMerged(c: Conn, g: Group, desired: Group, sid: Key, channel: Key) {
    && c.desired == c.applied == Some(desired) && c.deferred
    && c.subs == map[sid := Info(ORDERBOOK, g.id)] && c.channelOf == map[sid := ORDERBOOK]
    && c.pending == map[Key(1) := Subscription.Pending(g.id, {channel})]
  }

  lemma {:induction false} MergeIsHeard(
      cfg: Config, c: Conn, g: Group, desired: Group, sid: Key, channel: Key, members: set<Ticker>)
    requires cfg.Valid() && AwaitsBoth(cfg, c, g, desired, sid, true, true) && channel != ORDERBOOK
    requires cfg.groupChannels == {ORDERBOOK, channel} && desired == g.(tickers := members)
             && members != {} && members != g.tickers
    ensures HalfMerged(OnFrame(cfg, c, Merging(sid, members)), g, desired, sid, channel)
    ensures HeardReply(Tracked(c, Merging(sid, members)), Merging(sid, members)).conn.pending != map[]
  {
    var f := Merging(sid, members);
    TrackedControl(c, f);
    HeardHalf(Tracked(c, f), c, cfg, g, desired, sid, channel, members);
    NoResume(cfg, HeardReply(Tracked(c, f), f));
  }

  lemma {:induction false} HeardHalf(
      mid: Conn, c: Conn, cfg: Config, g: Group, desired: Group, sid: Key, channel: Key, members: set<Ticker>)
    requires AwaitsBoth(cfg, c, g, desired, sid, true, true) && SameControl(c, mid) && channel != ORDERBOOK
    requires cfg.groupChannels == {ORDERBOOK, channel} && desired == g.(tickers := members)
             && members != {} && members != g.tickers
    ensures HalfMerged(HearOk(mid, Some(Key(1)), Some(sid), members).conn, g, desired, sid, channel)
  {
    assert {ORDERBOOK, channel} - {ORDERBOOK} == {channel};
    var d := Answered(mid, Key(1), sid, ORDERBOOK);
    assert d.pending == map[Key(1) := Subscription.Pending(g.id, {channel})];
    SnapshotAskedKeeps(Merged(d, members), sid, Unfresh(Merged(d, members), members));
  }

  lemma {:induction false} MergeSends(
      cfg: Config, c: Conn, g: Group, desired: Group, sid: Key, channel: Key, members: set<Ticker>, e: Server)
    requires cfg.Valid() && AwaitsBoth(cfg, c, g, desired, sid, true, true)
    requires cfg.groupChannels == {ORDERBOOK, channel}
    requires HeardReply(Tracked(c, Merging(sid, members)), Merging(sid, members)).conn.pending != map[]
    ensures OnlyAsks(c, OnFrame(cfg, c, Merging(sid, members)))
    ensures Replied(e, c, Merging(sid, members)) == Given(e, Key(1), sid, members)
  {
    var f := Merging(sid, members);
    TrackingIsQuiet(c, f);
    OkAsksOnly(Tracked(c, f), Key(1), sid, members);
    OnlyAsksChain(c, Tracked(c, f), HeardReply(Tracked(c, f), f).conn);
    NoResume(cfg, HeardReply(Tracked(c, f), f));
  }

  lemma {:induction false} NoResume(cfg: Config, h: Heard)
    requires cfg.Valid() && h.conn.pending != map[]
    ensures After(cfg, h) == h.conn
  {
  }

  lemma {:induction false} OtherIsHeard(
      cfg: Config, c: Conn, g: Group, desired: Group, sid: Key, other: Key, channel: Key)
    requires cfg.Valid() && HalfMerged(c, g, desired, sid, channel) && sid != other && desired.id == g.id
    requires cfg.firehoseChannels == {} && desired.tickers != {}
    ensures HonestFrame(c, Accepting(Key(1), other, channel))
    ensures OnFrame(cfg, c, Accepting(Key(1), other, channel)) ==
            c.(subs := map[sid := Info(ORDERBOOK, g.id), other := Info(channel, g.id)], pending := map[],
               channelOf := c.channelOf[other := channel], deferred := false)
  {
    assert {channel} - {channel} == {};
    assert c.subs[other := Info(channel, g.id)] == map[sid := Info(ORDERBOOK, g.id), other := Info(channel, g.id)];
    NoPieces(cfg, desired);
  }

  lemma {:induction false} OtherSends(cfg: Config, c: Conn, d: Conn, g: Group, desired: Group, sid: Key, other: Key,
                                      channel: Key, e: Server)
    requires cfg.Valid() && HalfMerged(c, g, desired, sid, channel) && d.sent == c.sent && d.nextId == c.nextId
    ensures OnlyAsks(c, d) && Replied(e, c, Accepting(Key(1), other, channel)) == Given(e, Key(1), other, {})
  {
  }

  lemma {:induction false} StepServed(cfg: Config, desired: Option<Group>, steps: seq<Step>, s: Step)
    requires cfg.Valid() && Possible(cfg, Ran(cfg, desired, map[], steps), s)
    requires var w := Ran(cfg, desired, map[], steps); OnlyAsks(w.conn, Stepped(cfg, w, s).conn)
    ensures var w, e := Ran(cfg, desired, map[], steps), Served(cfg, desired, map[], steps);
            && Ran(cfg, desired, map[], steps + [s]) == Stepped(cfg, w, s)
            && Served(cfg, desired, map[], steps + [s]) == if s.Arrive? then Replied(e, w.conn, s.frame) else e
  {
    OneStep(cfg, desired, steps, s);
    assert (steps + [s])[..|steps|] == steps;
    var w, e := Ran(cfg, desired, map[], steps), Served(cfg, desired, map[], steps);
    AskingChangesNothing(w.conn, Stepped(cfg, w, s).conn, if s.Arrive? then Replied(e, w.conn, s.frame) else e);
  }

  /** Up to the merge: the exchange was asked for the group on two channels, and more is desired since. */
  lemma {:induction false} UpToMerge(cfg: Config, g: Group, desired: Group, sid: Key, channel: Key)
      returns (steps: seq<Step>)
    requires cfg.Valid() && cfg.groupChannels == {ORDERBOOK, channel} && channel != ORDERBOOK
    requires cfg.firehoseChannels == {} && ValidGroup(cfg, Some(g)) && |g.tickers| <= cfg.maxMarkets
    requires ValidGroup(cfg, Some(desired)) && desired.id == g.id
    ensures var w, e := Ran(cfg, Some(g), map[], steps), Served(cfg, Some(g), map[], steps);
            && AwaitsBoth(cfg, w.conn, g, desired, sid, true, true) && w.waiting == 0 && !w.refused
            && Key(1) in e.asked && e.asked[Key(1)] == g.tickers
  {
    OpenedFor(cfg, g);
    OpeningMirrors(cfg, Some(g), map[]);
    var c := Ran(cfg, Some(g), map[], []).conn;
    assert AwaitsBoth(cfg, c, g, g, sid, false, false);
    SidIsAnnounced(cfg, c, g, sid, Served(cfg, Some(g), map[], []));
    StepServed(cfg, Some(g), [], Arrive(Announcing(sid)));
    steps := [] + [Arrive(Announcing(sid))];
    c := Ran(cfg, Some(g), map[], steps).conn;
    NothingIsAsked(c, c.(desired := Some(desired)));
    StepServed(cfg, Some(g), steps, Want(Some(desired)));
    steps := steps + [Want(Some(desired))];
    RegroupWaits(cfg, Ran(cfg, Some(g), map[], steps).conn, g, desired, sid);
    StepServed(cfg, Some(g), steps, Regroup);
    steps := steps + [Regroup];
  }

  /** And past it: the other channel's reply comes, and nothing is left to send. */
  lemma {:induction false} PastMerge(
      cfg: Config, g: Group, desired: Group, sid: Key, other: Key, channel: Key, before: seq<Step>)
      returns (steps: seq<Step>)
    requires cfg.Valid() && sid != other && desired.id == g.id && cfg.firehoseChannels == {} && desired.tickers != {}
    requires var w, e := Ran(cfg, Some(g), map[], before), Served(cfg, Some(g), map[], before);
             && HalfMerged(w.conn, g, desired, sid, channel) && w.waiting == 0 && !w.refused
             && Key(1) in e.asked && e.asked[Key(1)] == g.tickers && sid in e.holds && e.holds[sid] == desired.tickers
    ensures var w, e := Ran(cfg, Some(g), map[], steps), Served(cfg, Some(g), map[], steps); var c := w.conn;
            && c.applied == c.desired == Some(desired) && c.pending == map[] && !c.deferred
            && c.subs == map[sid := Info(ORDERBOOK, g.id), other := Info(channel, g.id)]
            && w.waiting == 0 && !w.refused
            && sid in e.holds && e.holds[sid] == desired.tickers && other in e.holds && e.holds[other] == g.tickers
  {
    var last := Accepting(Key(1), other, channel);
    var c, e := Ran(cfg, Some(g), map[], before).conn, Served(cfg, Some(g), map[], before);
    OtherIsHeard(cfg, c, g, desired, sid, other, channel);
    OtherSends(cfg, c, OnFrame(cfg, c, last), g, desired, sid, other, channel, e);
    StepServed(cfg, Some(g), before, Arrive(last));
    steps := before + [Arrive(last)];
  }

  /** What a merge reports on one channel is believed of the group's other channel as well. For every group on two
      channels and every larger one desired while the subscribe is unanswered: a run that ends with that one applied
      and nothing pending, deferred or refused, while the other channel's sid carries only the markets first asked
      for, and no command to change that will be sent. */
  lemma {:induction false} MergeLeavesOtherSid(
      cfg: Config, g: Group, desired: Group, sid: Key, other: Key, channel: Key) returns (steps: seq<Step>)
    requires cfg.Valid() && cfg.groupChannels == {ORDERBOOK, channel} && channel != ORDERBOOK && sid != other
    requires cfg.firehoseChannels == {} && ValidGroup(cfg, Some(g)) && |g.tickers| <= cfg.maxMarkets
    requires desired == g.(tickers := desired.tickers) && g.tickers < desired.tickers
    ensures var w, e := Ran(cfg, Some(g), map[], steps), Served(cfg, Some(g), map[], steps); var c := w.conn;
            && c.applied == c.desired == Some(desired) && c.pending == map[] && !c.deferred
            && w.waiting == 0 && !w.refused && c.subs.Keys == {sid, other}
            && sid in e.holds && e.holds[sid] == desired.tickers
            && other in e.holds && e.holds[other] == g.tickers
            && Pieces(cfg, c) == []
  {
    var before := UpToMerge(cfg, g, desired, sid, channel);
    var merging := Merging(sid, desired.tickers);
    var c, e := Ran(cfg, Some(g), map[], before).conn, Served(cfg, Some(g), map[], before);
    MergeIsHeard(cfg, c, g, desired, sid, channel, desired.tickers);
    MergeSends(cfg, c, g, desired, sid, channel, desired.tickers, e);
    StepServed(cfg, Some(g), before, Arrive(merging));
    steps := PastMerge(cfg, g, desired, sid, other, channel, before + [Arrive(merging)]);
    NoPieces(cfg, desired);
  }

  lemma {:induction false} NoPieces(cfg: Config, g: Group)
    requires cfg.Valid() && g.tickers != {}
    ensures SplitAll(Diff(PlanOf(Some(g)), PlanOf(Some(g))), cfg.maxMarkets) == []
  {
    var plan := PlanOf(Some(g));
    assert ValidPlan(plan);
    DiffIsEmptyIff(plan, plan);
    assert SplitEach([], cfg.maxMarkets) == [];
  }
}
