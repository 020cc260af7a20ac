/** The hub and its sessions as objects: each method is proved against the session values of `Live`.
    `src/tape/api/hub.py`, `src/tape/api/session.py`. */
module Hub {
  import opened Prelude
  import opened OrderBook
  import opened Bus
  import opened Live

  const CLOSE_TOO_SLOW := 4000

  method TakeSnapshot(feed: LiveBooks, t: Ticker) returns (m: seq<Message>)
    requires feed.Valid()
    ensures m == SnapshotIfHeld(feed.Copies(), t)
  {
    if t !in feed.books { return []; }
    var book := feed.books[t];
    m := [Snapshot(t, book.stale, book.LevelsOf(Bid), book.LevelsOf(Ask))];
  }

  lemma ResyncsNext(subs: seq<Ticker>, k: nat, held: Books)
    requires k < |subs|
    ensures Resyncs(subs[..k + 1], held) ==
            Resyncs(subs[..k], held) + [Resync(subs[k], true)] + SnapshotIfHeld(held, subs[k])
  {
    assert subs[..k + 1][..k] == subs[..k];
  }

  class ClientSession {
    const queueMax: nat
    var queue: seq<Message>
    var subscriptions: seq<Ticker>
    var lagsNs: seq<int>
    var lags: nat
    var closeCode: Option<int>
    var gone: bool

    function View(): Session
      reads this
    {
      Session(subscriptions, queue, lagsNs, closeCode.Some?, gone)
    }

    constructor (queueMax: nat)
      requires queueMax >= 1
      ensures this.queueMax == queueMax && View() == Session([], [], [], false, false)
    {
      this.queueMax := queueMax;
      queue, subscriptions, lagsNs, lags, closeCode, gone := [], [], [], 0, None, false;
    }

    method Offer(messages: seq<Message>, feed: LiveBooks, nowNs: int)
      requires feed.Valid()
      modifies this
      ensures View() == Offered(old(View()), messages, feed.Copies(), nowNs, queueMax)
      ensures subscriptions == old(subscriptions)
      ensures lags == old(lags) + if Lags(old(View()), messages, queueMax) then 1 else 0
      ensures old(closeCode).None? && closeCode.Some? ==> closeCode == Some(4000)
    {
      if closeCode.Some? || gone || messages == [] { return; }
      if |queue| + |messages| <= queueMax {
        queue := queue + messages;
        return;
      }
      Lag(Replies(messages), feed, nowNs);
    }

    method Close(code: int)
      modifies this`closeCode, this`queue
      ensures closeCode == if old(closeCode).Some? then old(closeCode) else Some(code)
      ensures queue == if old(closeCode).Some? then old(queue) else []
    {
      if closeCode.Some? { return; }
      closeCode, queue := Some(code), [];
    }

    /** Replace the backlog by a resynchronization, or close a client that lags too often. */
    method Lag(replies: seq<Message>, feed: LiveBooks, nowNs: int)
      requires feed.Valid() && closeCode.None?
      modifies this
      ensures var kept := Recent(old(lagsNs) + [nowNs], nowNs);
              View() == if |kept| >= LAG_LIMIT then old(View()).(lags := kept, closed := true, queue := [])
                        else old(View()).(lags := kept, queue := replies + Resyncs(old(subscriptions), feed.Copies()))
      ensures lags == old(lags) + 1 && (closeCode.Some? ==> closeCode == Some(4000))
    {
      lags := lags + 1;
      Remember(nowNs);
      if |lagsNs| >= LAG_LIMIT {
        Close(CLOSE_TOO_SLOW);
        return;
      }
      var resyncs := Backlog(subscriptions, feed);
      queue := replies + resyncs;
    }

    static method Backlog(subs: seq<Ticker>, feed: LiveBooks) returns (q: seq<Message>)
      requires feed.Valid()
      ensures q == Resyncs(subs, feed.Copies())
    {
      ghost var held := feed.Copies();
      q := [];
      for k := 0 to |subs|
        invariant q == Resyncs(subs[..k], held)
      {
        var snapshot := TakeSnapshot(feed, subs[k]);
        ResyncsNext(subs, k, held);
        q := q + [Resync(subs[k], true)] + snapshot;
      }
      assert subs[..|subs|] == subs;
    }

    method Remember(nowNs: int)
      modifies this`lagsNs
      ensures lagsNs == Recent(old(lagsNs) + [nowNs], nowNs)
    {
      lagsNs := lagsNs + [nowNs];
      while nowNs - lagsNs[0] >= LAG_WINDOW_NS
        invariant lagsNs != [] && lagsNs[|lagsNs| - 1] == nowNs
        invariant Recent(lagsNs, nowNs) == Recent(old(lagsNs) + [nowNs], nowNs)
        decreases |lagsNs|
      {
        lagsNs := lagsNs[1..];
      }
    }

    /** The writer takes the next message to send. */
    method SendNext() returns (m: Message)
      requires queue != []
      modifies this`queue
      ensures m == old(queue)[0] && queue == old(queue)[1..]
    {
      m, queue := queue[0], queue[1..];
    }
  }

  lemma ForSessionSnoc(sent: seq<Message>, m: Message, subs: seq<Ticker>)
    requires m.IsMarket()
    ensures ForSession(sent + [m], subs) ==
            if m.ticker in subs then ForSession(sent, subs) + [m] else ForSession(sent, subs)
  {
    ForSessionAppend(sent, [m], subs);
    ForSessionOne(m, subs);
  }

  /** Every message one observation and its event mean, in order. */
  ghost function Meant(o: Observation, event: Event, held: Books): seq<Message> {
    ChangeMessages(o.changes, held) +
    EventMessage(event, o.applied, event.IsBook() && Snapshotted(o.changes, held, event.ticker), held)
  }

  lemma MeantIs(o: Observation, event: Event, held: Books, m: seq<Message>)
    requires m == EventMessage(event, o.applied,
      event.IsBook() && Snapshotted(o.changes, held, if event.IsBook() then event.ticker else Key(0)), held)
    ensures Meant(o, event, held) == ChangeMessages(o.changes, held) + m
  {
  }

  lemma MeantIsBatch(o: Observation, f: Follower, e: Envelope)
    requires o.changes == ChangesBy(f, e) && o.applied == AppliedTo(Held(f, e), e.event)
    ensures Meant(o, e.event, Observed(f, e).books) == Batch(f, e)
  {
  }

  /** Last of all a bus message means to a follower of `t` is a print of it. */
  ghost predicate EndsInPrint(batch: seq<Message>, t: Ticker) {
    forall subs: seq<Ticker> :: t in subs ==>
      ForSession(batch, subs) != [] && ForSession(batch, subs)[|ForSession(batch, subs)| - 1] == Print(t)
  }

  /** A trade or ticker update of a market an open session follows is the last thing in its queue, behind all that
      was there, if the queue has room for what the message means. */
  ghost predicate PrintArrives(batch: seq<Message>, event: Event, was: Session, queue: seq<Message>, queueMax: nat) {
    event.MarketPrint? && event.ticker in was.subs && was.Open()
    && |was.queue| + |ForSession(batch, was.subs)| <= queueMax ==>
      queue != [] && queue[|queue| - 1] == Print(event.ticker) && was.queue <= queue
  }

  lemma PrintEndsBatch(f: Follower, e: Envelope)
    requires AllWellFormed(f.books)
    ensures e.event.MarketPrint? ==> EndsInPrint(Batch(f, e), e.event.ticker)
  {
    forall subs: seq<Ticker> | e.event.MarketPrint? && e.event.ticker in subs
      ensures ForSession(Batch(f, e), subs) != []
      ensures ForSession(Batch(f, e), subs)[|ForSession(Batch(f, e), subs)| - 1] == Print(e.event.ticker)
    {
      PrintsReachFollowers(f, e, subs);
    }
  }

  lemma PrintIsOffered(
      batch: seq<Message>, event: Event, was: Session, now: Session, books: Books, nowNs: int, queueMax: nat)
    requires event.MarketPrint? ==> EndsInPrint(batch, event.ticker)
    requires now == Offered(was, ForSession(batch, was.subs), books, nowNs, queueMax)
    ensures PrintArrives(batch, event, was, now.queue, queueMax)
  {
    var q := ForSession(batch, was.subs);
    if event.MarketPrint? && event.ticker in was.subs && was.Open() && |was.queue| + |q| <= queueMax {
      RoomQueues(was, q, Print(event.ticker), books, nowNs, queueMax);
    }
  }

  type Outbox = map<ClientSession, seq<Message>>

  function Out(outbox: Outbox, s: ClientSession): seq<Message> {
    if s in outbox then outbox[s] else []
  }

  function Without(q: seq<ClientSession>, s: ClientSession): seq<ClientSession> {
    if q == [] then [] else
      Without(q[..|q| - 1], s) + (if q[|q| - 1] == s then [] else [q[|q| - 1]])
  }

  lemma {:induction false} WithoutMembers(q: seq<ClientSession>, s: ClientSession, u: ClientSession)
    requires Distinct(q)
    ensures Distinct(Without(q, s))
    ensures u in Without(q, s) <==> u in q && u != s
  {
    if q != [] {
      var init, last := q[..|q| - 1], q[|q| - 1];
      assert q == init + [last];
      WithoutMembers(init, s, u);
      WithoutMembers(init, s, last);
      assert last !in init by {
        assert forall i :: 0 <= i < |init| ==> init[i] == q[i];
      }
      var kept := Without(init, s);
      assert forall i :: 0 <= i < |kept| ==> kept[i] in kept;
    }
  }

  lemma {:induction false} WithoutIsShorter(q: seq<ClientSession>, s: ClientSession)
    ensures |Without(q, s)| <= |q|
  {
    if q != [] { WithoutIsShorter(q[..|q| - 1], s); }
  }

  function FollowersOf(followers: map<Ticker, seq<ClientSession>>, t: Ticker): seq<ClientSession> {
    if t in followers then followers[t] else []
  }

  class LiveHub {
    const live: LiveBooks
    const maxClients: nat
    const maxTickers: nat
    const clientQueueMax: nat
    var directory: set<Ticker>
    var sessions: seq<ClientSession>
    var followers: map<Ticker, seq<ClientSession>>
    var malformed: nat

    ghost predicate Follows(t: Ticker, s: ClientSession)
      reads this`followers
    {
      s in FollowersOf(followers, t)
    }

    /** Followers and subscriptions mirror each other. */
    ghost predicate Mirrored()
      reads this`followers, this`sessions, sessions`subscriptions
    {
      && (forall t :: t in followers ==> followers[t] != [] && Distinct(followers[t]))
      && (forall t :: t in followers ==> forall s :: s in followers[t] ==> s in sessions)
      && (forall s, t :: s in sessions ==> (Follows(t, s) <==> t in s.subscriptions))
    }

    ghost predicate Valid()
      reads this`followers, this`sessions, sessions`subscriptions, live`books, live`repr, live.repr
    {
      live.Valid() && Distinct(sessions) && Mirrored() && |sessions| <= maxClients && clientQueueMax >= 1
    }

    constructor (maxClients: nat, maxTickers: nat, clientQueueMax: nat)
      requires clientQueueMax >= 1
      ensures Valid() && fresh(live) && live.View() == NEW_FOLLOWER && sessions == []
    {
      live := new LiveBooks();
      this.maxClients, this.maxTickers, this.clientQueueMax := maxClients, maxTickers, clientQueueMax;
      directory, sessions, followers, malformed := {}, [], map[], 0;
    }

    /** Attach a session and queue its `hello`, unless the hub is full. */
    method Admit(nowNs: int) returns (session: ClientSession?)
      requires Valid()
      modifies this`sessions
      ensures Valid()
      ensures session == null <==> |old(sessions)| >= maxClients
      ensures session == null ==> sessions == old(sessions)
      ensures session != null ==> fresh(session) && sessions == old(sessions) + [session]
      ensures session != null ==> session.View() == Session([], [Hello], [], false, false)
    {
      if |sessions| >= maxClients { return null; }
      var s := new ClientSession(clientQueueMax);
      s.Offer([Hello], live, nowNs);
      assert forall i :: 0 <= i < |sessions| ==> sessions[i] != s;
      assert forall t :: !Follows(t, s);
      sessions := sessions + [s];
      session := s;
    }

    // ---------------------------------------------------------------- subscriptions

    method Unfollow(t: Ticker, s: ClientSession)
      requires t in followers ==> Distinct(followers[t])
      modifies this`followers
      ensures forall u :: u != t ==>
                FollowersOf(followers, u) == FollowersOf(old(followers), u) && (u in followers <==> u in old(followers))
      ensures t in followers ==> followers[t] != [] && Distinct(followers[t])
      ensures forall x: ClientSession ::
              x in FollowersOf(followers, t) <==> x in FollowersOf(old(followers), t) && x != s
    {
      if t !in followers { return; }
      var kept := Without(followers[t], s);
      forall x: ClientSession ensures Distinct(kept) && (x in kept <==> x in followers[t] && x != s) {
        WithoutMembers(followers[t], s, x);
      }
      WithoutMembers(followers[t], s, s);
      if kept == [] {
        followers := followers - {t};
      } else {
        followers := followers[t := kept];
      }
    }

    method Follow(t: Ticker, s: ClientSession)
      requires t in followers ==> Distinct(followers[t])
      modifies this`followers
      ensures forall u :: u != t ==>
                FollowersOf(followers, u) == FollowersOf(old(followers), u) && (u in followers <==> u in old(followers))
      ensures t in followers && followers[t] != [] && Distinct(followers[t])
      ensures forall x: ClientSession ::
              x in FollowersOf(followers, t) <==> x in FollowersOf(old(followers), t) || x == s
    {
      var q := FollowersOf(followers, t);
      if s !in q {
        assert forall i :: 0 <= i < |q| ==> q[i] in q;
        q := q + [s];
      }
      followers := followers[t := q];
    }

    /** No empty or repeating follower list: the shape `dict[str, dict[session, None]]` has. */
    ghost predicate Tabled()
      reads this`followers
    {
      forall t :: t in followers ==> followers[t] != [] && Distinct(followers[t])
    }

    method UnfollowAll(tickers: seq<Ticker>, session: ClientSession)
      requires Tabled()
      modifies this`followers
      ensures Tabled()
      ensures forall t, x: ClientSession :: x in FollowersOf(followers, t) <==>
        x in FollowersOf(old(followers), t) && !(x == session && t in tickers)
    {
      for k := 0 to |tickers|
        invariant Tabled()
        invariant forall t, x: ClientSession :: x in FollowersOf(followers, t) <==>
          x in FollowersOf(old(followers), t) && !(x == session && t in tickers[..k])
      {
        assert forall t :: t in tickers[..k + 1] <==> t in tickers[..k] || t == tickers[k];
        Unfollow(tickers[k], session);
      }
      assert tickers[..|tickers|] == tickers;
    }

    method FollowAll(tickers: seq<Ticker>, session: ClientSession)
      requires Tabled()
      modifies this`followers
      ensures Tabled()
      ensures forall t, x: ClientSession :: x in FollowersOf(followers, t) <==>
        x in FollowersOf(old(followers), t) || (x == session && t in tickers)
    {
      for k := 0 to |tickers|
        invariant Tabled()
        invariant forall t, x: ClientSession :: x in FollowersOf(followers, t) <==>
          x in FollowersOf(old(followers), t) || (x == session && t in tickers[..k])
      {
        assert forall t :: t in tickers[..k + 1] <==> t in tickers[..k] || t == tickers[k];
        Follow(tickers[k], session);
      }
      assert tickers[..|tickers|] == tickers;
    }

    method Accept(tickers: seq<Ticker>) returns (accepted: seq<Ticker>, rejected: seq<Rejection>)
      ensures (accepted, rejected) == Judge(Dedupe(tickers), directory, maxTickers)
    {
      var wanted := Dedupe(tickers);
      accepted, rejected := [], [];
      for k := 0 to |wanted|
        invariant (accepted, rejected) == Judge(wanted[..k], directory, maxTickers)
      {
        assert wanted[..k + 1][..k] == wanted[..k];
        if wanted[k] !in directory {
          rejected := rejected + [UnknownTicker(wanted[k])];
        } else if |accepted| >= maxTickers {
          rejected := rejected + [TooManyTickers(wanted[k])];
        } else {
          accepted := accepted + [wanted[k]];
        }
      }
      assert wanted[..|wanted|] == wanted;
    }

    method SnapshotsFor(accepted: seq<Ticker>, previous: seq<Ticker>) returns (m: seq<Message>)
      requires live.Valid()
      ensures m == NewSnapshots(accepted, previous, live.Copies())
    {
      m := [];
      for k := 0 to |accepted|
        invariant m == NewSnapshots(accepted[..k], previous, live.Copies())
      {
        assert accepted[..k + 1][..k] == accepted[..k];
        var snapshot := [];
        if accepted[k] !in previous { snapshot := TakeSnapshot(live, accepted[k]); }
        m := m + snapshot;
      }
      assert accepted[..|accepted|] == accepted;
    }

    /** Replace a session's subscription set, and offer the reply and the new snapshots. */
    method Subscribe(session: ClientSession, tickers: seq<Ticker>, nowNs: int)
        returns (accepted: seq<Ticker>, rejected: seq<Rejection>)
      requires Valid() && session in sessions
      modifies this`followers, session
      ensures Valid() && live.View() == old(live.View())
      ensures (accepted, rejected) == Judge(Dedupe(tickers), directory, maxTickers)
      ensures session.View() ==
              Resubscribed(old(session.View()), accepted, rejected, live.Copies(), nowNs, session.queueMax)
    {
      ghost var was := session.View();
      var previous := session.subscriptions;
      accepted, rejected := Accept(tickers);
      Refollow(session, previous, accepted);
      Answer(session, previous, accepted, rejected, nowNs, was);
    }

    method Answer(
        session: ClientSession, previous: seq<Ticker>, accepted: seq<Ticker>, rejected: seq<Rejection>, nowNs: int,
        ghost was: Session)
      requires Valid() && session in sessions && session.View() == was.(subs := accepted) && previous == was.subs
      modifies session
      ensures Valid() && live.View() == old(live.View())
      ensures session.View() == Resubscribed(was, accepted, rejected, live.Copies(), nowNs, session.queueMax)
    {
      var snapshots := SnapshotsFor(accepted, previous);
      session.Offer([Subscribed(accepted, rejected)] + snapshots, live, nowNs);
    }

    /** Move a session from its previous markets to the accepted ones, on both sides. */
    method Refollow(session: ClientSession, previous: seq<Ticker>, accepted: seq<Ticker>)
      requires Valid() && session in sessions && previous == session.subscriptions
      modifies this`followers, session`subscriptions
      ensures Valid() && live.View() == old(live.View())
      ensures session.View() == old(session.View()).(subs := accepted)
    {
      ghost var before := followers;
      assert forall s, t :: s in sessions ==> (s in FollowersOf(before, t) <==> t in s.subscriptions) by {
        forall s, t | s in sessions ensures s in FollowersOf(before, t) <==> t in s.subscriptions {
          assert Follows(t, s) <==> t in s.subscriptions;
        }
      }
      assert forall t, s: ClientSession :: s in FollowersOf(before, t) ==> s in sessions;
      Relist(session, previous, accepted);
      session.subscriptions := accepted;
      forall s, t | s in sessions ensures Follows(t, s) <==> t in s.subscriptions {
        assert s in FollowersOf(followers, t) <==> if s == session then t in accepted else s in FollowersOf(before, t);
      }
      forall t | t in followers ensures forall s :: s in followers[t] ==> s in sessions {
        forall s | s in followers[t] ensures s in sessions {
          assert s in FollowersOf(followers, t);
        }
      }
    }

    method Relist(session: ClientSession, previous: seq<Ticker>, accepted: seq<Ticker>)
      requires Tabled() && forall t :: session in FollowersOf(followers, t) <==> t in previous
      modifies this`followers
      ensures Tabled()
      ensures forall t, x: ClientSession :: x in FollowersOf(followers, t) <==>
        if x == session then t in accepted else x in FollowersOf(old(followers), t)
    {
      ghost var before := followers;
      var left := Left(previous, accepted);
      forall t ensures t in left <==> t in previous && t !in accepted {
        LeftMembers(previous, accepted, t);
      }
      UnfollowAll(left, session);
      FollowAll(accepted, session);
    }

    static function Left(previous: seq<Ticker>, accepted: seq<Ticker>): seq<Ticker> {
      if previous == [] then [] else
        Left(previous[..|previous| - 1], accepted) +
        (if previous[|previous| - 1] in accepted then [] else [previous[|previous| - 1]])
    }

    static lemma {:induction false} LeftMembers(previous: seq<Ticker>, accepted: seq<Ticker>, t: Ticker)
      ensures t in Left(previous, accepted) <==> t in previous && t !in accepted
    {
      if previous != [] {
        var init, last := previous[..|previous| - 1], previous[|previous| - 1];
        LeftMembers(init, accepted, t);
        assert t in previous <==> t in init || t == last by { assert previous == init + [last]; }
      }
    }

    /** Forget a session whose connection ended. */
    method Detach(session: ClientSession)
      requires Valid()
      modifies this`sessions, this`followers
      ensures Valid() && forall s: ClientSession :: s in sessions <==> s in old(sessions) && s != session
    {
      ghost var before := followers;
      assert forall s, t :: s in sessions ==> (s in FollowersOf(before, t) <==> t in s.subscriptions) by {
        forall s, t | s in sessions ensures s in FollowersOf(before, t) <==> t in s.subscriptions {
          assert Follows(t, s) <==> t in s.subscriptions;
        }
      }
      assert forall t, s: ClientSession :: s in FollowersOf(before, t) ==> s in sessions;
      UnfollowAll(session.subscriptions, session);
      assert forall t, s: ClientSession ::
             s in FollowersOf(followers, t) <==> s in FollowersOf(before, t) && s != session;
      DropSession(session);
      forall s, t | s in sessions ensures Follows(t, s) <==> t in s.subscriptions {
        assert s in FollowersOf(before, t) <==> t in s.subscriptions;
      }
      forall t | t in followers ensures forall s :: s in followers[t] ==> s in sessions {
        forall s | s in followers[t] ensures s in sessions {
          assert s in FollowersOf(followers, t);
        }
      }
    }

    method DropSession(session: ClientSession)
      requires Distinct(sessions)
      modifies this`sessions
      ensures Distinct(sessions) && |sessions| <= |old(sessions)|
      ensures forall s: ClientSession :: s in sessions <==> s in old(sessions) && s != session
    {
      var kept := Without(sessions, session);
      forall s: ClientSession ensures Distinct(kept) && (s in kept <==> s in sessions && s != session) {
        WithoutMembers(sessions, session, s);
      }
      WithoutMembers(sessions, session, session);
      WithoutIsShorter(sessions, session);
      sessions := kept;
    }

    // ---------------------------------------------------------------- fan-out

    /** The outbox holds, for each session, what of `sent` concerns it. */
    ghost predicate Owed(outbox: Outbox, sent: seq<Message>)
      reads this`sessions, sessions`subscriptions
    {
      && (forall s :: s in outbox ==> s in sessions)
      && (forall s :: s in sessions ==> Out(outbox, s) == ForSession(sent, s.subscriptions))
    }

    method Send(outbox: Outbox, m: Message, ghost sent: seq<Message>) returns (out: Outbox)
      requires Mirrored() && m.IsMarket() && Owed(outbox, sent)
      ensures Owed(out, sent + [m])
    {
      out := outbox;
      var q := FollowersOf(followers, m.ticker);
      for k := 0 to |q|
        invariant forall s :: s in out ==> s in sessions
        invariant forall s: ClientSession :: Out(out, s) == if s in q[..k] then Out(outbox, s) + [m] else Out(outbox, s)
      {
        assert q[..k + 1] == q[..k] + [q[k]];
        assert q[k] !in q[..k];
        assert q[k] in q;
        out := out[q[k] := Out(out, q[k]) + [m]];
      }
      assert q[..|q|] == q;
      forall s | s in sessions ensures Out(out, s) == ForSession(sent + [m], s.subscriptions) {
        assert Follows(m.ticker, s) <==> s in q;
        ForSessionSnoc(sent, m, s.subscriptions);
      }
    }

    method SendAll(outbox: Outbox, messages: seq<Message>, ghost sent: seq<Message>) returns (out: Outbox)
      requires Mirrored() && MarketOnly(messages) && Owed(outbox, sent)
      ensures Owed(out, sent + messages)
    {
      out := outbox;
      assert sent + messages[..0] == sent;
      for k := 0 to |messages|
        invariant Owed(out, sent + messages[..k])
      {
        assert sent + messages[..k + 1] == (sent + messages[..k]) + [messages[k]];
        out := Send(out, messages[k], sent + messages[..k]);
      }
      assert messages[..|messages|] == messages;
    }

    /** What one status change sends, and whether that was the market's snapshot. */
    method ChangeToSend(c: StatusChange) returns (m: seq<Message>, snapshot: bool)
      requires live.Valid()
      ensures m == ChangeMessage(c, live.Copies()) && About(m, c.ticker)
      ensures snapshot == (c.after != Unknown && (c.before == Unknown || c.after == Fresh) && c.ticker in live.Copies())
    {
      snapshot := false;
      if c.after == Unknown {
        m := [Resync(c.ticker, false)];
      } else if c.before == Unknown || c.after == Fresh {
        m := TakeSnapshot(live, c.ticker);
        snapshot := m != [];
      } else {
        m := [WentStale(c.ticker)];
      }
    }

    method EventToSend(event: Event, applied: bool, snapshotted: bool) returns (m: seq<Message>)
      requires live.Valid()
      ensures m == EventMessage(event, applied, snapshotted, live.Copies()) && MarketOnly(m)
    {
      match event
      case MarketPrint(t) => m := [Print(t)];
      case BookDelta(t, _, side, price, delta) => m := if applied then [Delta(t, side, price, delta)] else [];
      case BookSnapshot(t, _, _, _) =>
        if applied && !snapshotted { m := TakeSnapshot(live, t); } else { m := []; }
      case _ => m := [];
    }

    /** What every session is owed for one bus message, gathered before anything is offered. */
    method Gather(o: Observation, event: Event) returns (outbox: Outbox, ghost sent: seq<Message>)
      requires Valid()
      ensures Owed(outbox, sent) && sent == Meant(o, event, live.Copies())
    {
      ghost var held := live.Copies();
      var wanted := if event.IsBook() then event.ticker else Key(0);
      var snapshotted;
      outbox, snapshotted := GatherChanges(o.changes, wanted, held);
      ghost var before := ChangeMessages(o.changes, held);
      var m := EventToSend(event, o.applied, event.IsBook() && snapshotted);
      MeantIs(o, event, held, m);
      sent := before + m;
      outbox := SendAll(outbox, m, before);
    }

    method GatherChanges(
        changes: seq<StatusChange>, wanted: Ticker, ghost held: Books) returns (outbox: Outbox, snapshotted: bool)
      requires Valid() && held == live.Copies()
      ensures Owed(outbox, ChangeMessages(changes, held))
      ensures snapshotted == Snapshotted(changes, held, wanted)
    {
      outbox, snapshotted := map[], false;
      for k := 0 to |changes|
        invariant Owed(outbox, ChangeMessages(changes[..k], held))
        invariant snapshotted == Snapshotted(changes[..k], held, wanted)
      {
        assert changes[..k + 1][..k] == changes[..k];
        var m, snapshot := ChangeToSend(changes[k]);
        outbox := SendAll(outbox, m, ChangeMessages(changes[..k], held));
        snapshotted := snapshotted || (snapshot && changes[k].ticker == wanted);
      }
      assert changes[..|changes|] == changes;
    }

    method OfferAll(outbox: Outbox, nowNs: int)
      requires Valid()
      modifies sessions
      ensures Valid() && live.View() == old(live.View())
      ensures forall s :: s in sessions ==>
        s.View() == Offered(old(s.View()), Out(outbox, s), live.Copies(), nowNs, s.queueMax)
    {
      for k := 0 to |sessions|
        invariant Valid() && live.View() == old(live.View())
        invariant forall j :: 0 <= j < k ==>
          sessions[j].View() ==
              Offered(old(sessions[j].View()), Out(outbox, sessions[j]), live.Copies(), nowNs, sessions[j].queueMax)
        invariant forall j :: k <= j < |sessions| ==> sessions[j].View() == old(sessions[j].View())
      {
        if sessions[k] in outbox {
          sessions[k].Offer(outbox[sessions[k]], live, nowNs);
        }
      }
    }

    /** One bus message: the books follow it, and every session is offered what it means for the
        markets that session follows, in one batch. */
    method Receive(e: Envelope, nowNs: int)
      requires Valid()
      modifies live, live.repr, this`directory, sessions
      ensures Valid() && live.View() == Observed(old(live.View()), e)
      ensures directory == if e.event.Catalog? then e.event.markets else old(directory)
      ensures forall s :: s in sessions ==>
        s.View() == Offered(old(s.View()), ForSession(Batch(old(live.View()), e), old(s.subscriptions)), live.Copies(),
            nowNs, s.queueMax)
      ensures forall s :: s in sessions ==>
        PrintArrives(Batch(old(live.View()), e), e.event, old(s.View()), s.queue, s.queueMax)
    {
      ghost var before := live.View();
      PrintEndsBatch(before, e);
      var o := live.Observe(e);
      MeantIsBatch(o, before, e);
      Announce(o, e.event, Batch(before, e), nowNs);
    }

    /** The books have followed the message: the directory does, and the sessions are told. */
    method Announce(o: Observation, event: Event, ghost batch: seq<Message>, nowNs: int)
      requires Valid() && batch == Meant(o, event, live.Copies())
      requires event.MarketPrint? ==> EndsInPrint(batch, event.ticker)
      modifies this`directory, sessions
      ensures Valid() && live.View() == old(live.View())
      ensures directory == if event.Catalog? then event.markets else old(directory)
      ensures forall s :: s in sessions ==>
        s.View() == Offered(old(s.View()), ForSession(batch, old(s.subscriptions)), live.Copies(), nowNs, s.queueMax)
      ensures forall s :: s in sessions ==> PrintArrives(batch, event, old(s.View()), s.queue, s.queueMax)
    {
      if event.Catalog? { directory := event.markets; }
      FanOut(o, event, batch, nowNs);
    }

    method FanOut(o: Observation, event: Event, ghost batch: seq<Message>, nowNs: int)
      requires Valid() && batch == Meant(o, event, live.Copies())
      requires event.MarketPrint? ==> EndsInPrint(batch, event.ticker)
      modifies sessions
      ensures Valid() && live.View() == old(live.View())
      ensures forall s :: s in sessions ==>
        s.View() == Offered(old(s.View()), ForSession(batch, old(s.subscriptions)), live.Copies(), nowNs, s.queueMax)
      ensures forall s :: s in sessions ==> PrintArrives(batch, event, old(s.View()), s.queue, s.queueMax)
    {
      ghost var sent;
      var outbox;
      outbox, sent := Gather(o, event);
      OfferAll(outbox, nowNs);
      ghost var held := live.Copies();
      forall s | s in sessions ensures PrintArrives(batch, event, old(s.View()), s.queue, s.queueMax) {
        PrintIsOffered(batch, event, old(s.View()), s.View(), held, nowNs, s.queueMax);
      }
    }

    /** A message that does not decode is counted and skipped. */
    method ReceiveMalformed()
      modifies this`malformed
      ensures malformed == old(malformed) + 1
    {
      malformed := malformed + 1;
    }
  }
}
