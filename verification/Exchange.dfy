/** What the commands of a connection make the exchange hold, beside what the connection believes it holds:
    `src/tape/recorder/planner.py` and `src/tape/recorder/supervisor.py`. */
module Exchange {
  import opened Prelude
  import opened OrderBook
  import opened Planner
  import opened Subscription
  import opened Feed
  import Bus

  /** The markets each subscribe command asked for, by its number, and those each sid carries. */
  datatype Server = Server(asked: map<Key, set<Ticker>>, holds: map<Key, set<Ticker>>)

  const EMPTY_SERVER := Server(map[], map[])

  // ------------------------------------------------------------------ the commands

  /** What one command does: a subscribe is remembered until a reply gives it sids, an update adds markets to its sid
      or deletes them, and sids unsubscribed carry nothing. */
  ghost function Obeyed(e: Server, id: int, command: Command): Server {
    match command
    case Subscribe(_, tickers) => e.(asked := e.asked[Key(id) := Elems(tickers)])
    case Unsubscribe(sids) => e.(holds := e.holds - Elems(sids))
    case Update(sid, add, tickers) =>
      if sid !in e.holds then e
      else if add then e.(holds := e.holds[sid := e.holds[sid] + Elems(tickers)])
      else e.(holds := e.holds[sid := e.holds[sid] - Elems(tickers)])
    case GetSnapshot(_, _) => e
  }

  /** Commands numbered upward from `id`. */
  ghost function ObeyedAll(e: Server, id: int, commands: seq<Command>): Server {
    if commands == [] then e else
      var last := |commands| - 1;
      Obeyed(ObeyedAll(e, id, commands[..last]), id + last, commands[last])
  }

  lemma {:induction false} ObeyedAppend(e: Server, id: int, a: seq<Command>, b: seq<Command>)
    ensures ObeyedAll(e, id, a + b) == ObeyedAll(ObeyedAll(e, id, a), id + |a|, b)
  {
    if b == [] {
      assert a + b == a;
    } else {
      ObeyedAppend(e, id, a, b[..|b| - 1]);
      assert (a + b)[..|a + b| - 1] == a + b[..|b| - 1];
    }
  }

  lemma ObeyedOne(e: Server, id: int, command: Command)
    ensures ObeyedAll(e, id, [command]) == Obeyed(e, id, command)
  {
    assert [command][..0] == [];
  }

  function Updated(held: set<Ticker>, add: bool, tickers: set<Ticker>): set<Ticker> {
    if add then held + tickers else held - tickers
  }

  lemma {:induction false} UpdatesObeyed(e: Server, id: int, sids: seq<Key>, add: bool, tickers: seq<Ticker>, s: Key)
    ensures var d := ObeyedAll(e, id, UpdatesFor(sids, add, tickers));
            && d.asked == e.asked && d.holds.Keys == e.holds.Keys
            && (s in e.holds ==>
                d.holds[s] == if s in sids then Updated(e.holds[s], add, Elems(tickers)) else e.holds[s])
  {
    if sids != [] {
      var init, last := sids[..|sids| - 1], sids[|sids| - 1];
      UpdatesObeyed(e, id, init, add, tickers, s);
      var commands := UpdatesFor(sids, add, tickers);
      assert commands[..|commands| - 1] == UpdatesFor(init, add, tickers);
      assert sids == init + [last];
    }
  }

  /** A subscribe asks for exactly the group's markets. */
  lemma AddGroupObeyed(cfg: Config, subs: map<Key, Info>, e: Server, id: int, g: Group)
    ensures ObeyedAll(e, id, CommandsOf(cfg, subs, AddGroup(g))) == e.(asked := e.asked[Key(id) := g.tickers])
  {
    ObeyedOne(e, id, Subscribe(cfg.groupChannels, Sorted(g.tickers)));
    assert Elems(Sorted(g.tickers)) == g.tickers;
  }

  /** Of a group removed no sid is left, and nothing else changes. */
  lemma RemoveGroupObeyed(cfg: Config, subs: map<Key, Info>, e: Server, id: int, group: Key, s: Key)
    ensures var d := ObeyedAll(e, id, CommandsOf(cfg, subs, RemoveGroup(group)));
            && d.asked == e.asked && (s in d.holds <==> s in e.holds && !(s in subs && subs[s].group == group))
            && (s in d.holds ==> d.holds[s] == e.holds[s])
  {
    ObeyedOne(e, id, Unsubscribe(Sorted(SidsOf(subs, group))));
    assert Elems(Sorted(SidsOf(subs, group))) == SidsOf(subs, group);
  }

  /** Markets added or removed are so on every sid of the group, and on no other. */
  lemma MembersObeyed(
      cfg: Config, subs: map<Key, Info>, e: Server, id: int, group: Key, ts: seq<Ticker>, s: Key)
    requires s in e.holds
    ensures var d := ObeyedAll(e, id, CommandsOf(cfg, subs, AddMarkets(group, ts)));
            && d.asked == e.asked && d.holds.Keys == e.holds.Keys
            && d.holds[s] == if s in subs && subs[s].group == group then e.holds[s] + Elems(ts) else e.holds[s]
    ensures var d := ObeyedAll(e, id, CommandsOf(cfg, subs, RemoveMarkets(group, ts)));
            && d.asked == e.asked && d.holds.Keys == e.holds.Keys
            && d.holds[s] == if s in subs && subs[s].group == group then e.holds[s] - Elems(ts) else e.holds[s]
  {
    UpdatesObeyed(e, id, Sorted(SidsOf(subs, group)), true, ts, s);
    UpdatesObeyed(e, id, Sorted(SidsOf(subs, group)), false, ts, s);
    assert s in Sorted(SidsOf(subs, group)) <==> s in SidsOf(subs, group);
  }

  // ------------------------------------------------------------------ what the connection believes

  /** The exchange carries what the connection has sids for. */
  ghost predicate SameSids(subs: map<Key, Info>, holds: map<Key, set<Ticker>>) {
    forall s :: s in holds <==> s in subs
  }

  /** Every sid of the applied group carries exactly the applied markets. */
  ghost predicate SameMembers(applied: Option<Group>, subs: map<Key, Info>, holds: map<Key, set<Ticker>>) {
    applied.Some? ==>
      forall s :: s in subs && subs[s].group == applied.value.id ==> s in holds && holds[s] == applied.value.tickers
  }

  /** And a subscribe of the group that still awaits replies asked for exactly them. */
  ghost predicate SameAsked(applied: Option<Group>, pending: map<Key, Pending>, asked: map<Key, set<Ticker>>) {
    applied.Some? ==>
      forall k :: k in pending && pending[k].group == applied.value.id ==>
        k in asked && asked[k] == applied.value.tickers
  }

  ghost predicate Mirrors(c: Conn, e: Server) {
    SameSids(c.subs, e.holds) && SameMembers(c.applied, c.subs, e.holds) && SameAsked(c.applied, c.pending, e.asked)
  }

  lemma AddGroupMirrors(cfg: Config, c: Conn, e: Server, piece: Change)
    requires Steady(cfg, c) && Mirrors(c, e) && piece.AddGroup? && c.applied.None? && piece.group.id != FIREHOSE
    ensures Mirrors(SentPiece(cfg, c, piece), ObeyedAll(e, c.nextId, CommandsOf(cfg, c.subs, piece)))
  {
    AddGroupObeyed(cfg, c.subs, e, c.nextId, piece.group);
  }

  lemma RemoveGroupMirrors(cfg: Config, c: Conn, e: Server, piece: Change)
    requires Steady(cfg, c) && Mirrors(c, e) && piece.RemoveGroup?
    ensures Mirrors(SentPiece(cfg, c, piece), ObeyedAll(e, c.nextId, CommandsOf(cfg, c.subs, piece)))
  {
    forall s { RemoveGroupObeyed(cfg, c.subs, e, c.nextId, piece.id, s); }
  }

  lemma MembersMirror(cfg: Config, c: Conn, e: Server, piece: Change)
    requires Steady(cfg, c) && Mirrors(c, e) && (piece.AddMarkets? || piece.RemoveMarkets?)
    requires c.applied.Some? && c.applied.value.id == piece.id && HasSid(c, piece.id)
             && !Subscribing(c.pending, piece.id)
    ensures Mirrors(SentPiece(cfg, c, piece), ObeyedAll(e, c.nextId, CommandsOf(cfg, c.subs, piece)))
  {
    var r :| r in SidsOf(c.subs, piece.id);
    MembersObeyed(cfg, c.subs, e, c.nextId, piece.id, piece.tickers, r);
    forall s | s in e.holds { MembersObeyed(cfg, c.subs, e, c.nextId, piece.id, piece.tickers, s); }
  }

  /** Once a piece's commands are obeyed the exchange holds what is recorded after it. */
  lemma PieceMirrors(cfg: Config, c: Conn, e: Server, piece: Change)
    requires Steady(cfg, c) && Mirrors(c, e) && Sendable(cfg, c, piece) && Fits(cfg, c.applied, piece)
    ensures Mirrors(SentPiece(cfg, c, piece), ObeyedAll(e, c.nextId, CommandsOf(cfg, c.subs, piece)))
  {
    match piece
    case AddGroup(_) => AddGroupMirrors(cfg, c, e, piece);
    case RemoveGroup(_) => RemoveGroupMirrors(cfg, c, e, piece);
    case _ => MembersMirror(cfg, c, e, piece);
  }

  // ------------------------------------------------------------------ whole reconciliations

  /** What was sent between two moments, and that the numbers kept count of it. */
  ghost predicate Advances(c: Conn, d: Conn) {
    c.sent <= d.sent && d.nextId == c.nextId + |d.sent| - |c.sent|
  }

  ghost function SentSince(c: Conn, d: Conn): seq<Command>
    requires Advances(c, d)
  {
    d.sent[|c.sent|..]
  }

  /** The exchange once everything sent since has been obeyed. */
  ghost function Then(e: Server, c: Conn, d: Conn): Server
    requires Advances(c, d)
  {
    ObeyedAll(e, c.nextId, SentSince(c, d))
  }

  lemma ThenChains(e: Server, b: Conn, c: Conn, d: Conn)
    requires Advances(b, c) && Advances(c, d)
    ensures Advances(b, d) && Then(e, b, d) == Then(Then(e, b, c), c, d)
  {
    assert SentSince(b, d) == SentSince(b, c) + SentSince(c, d);
    ObeyedAppend(e, b.nextId, SentSince(b, c), SentSince(c, d));
  }

  lemma PieceAdvances(cfg: Config, c: Conn, piece: Change)
    ensures Advances(c, SentPiece(cfg, c, piece))
    ensures SentSince(c, SentPiece(cfg, c, piece)) == CommandsOf(cfg, c.subs, piece)
  {
  }

  lemma {:induction false} PiecesMirror(cfg: Config, c: Conn, e: Server, pieces: seq<Change>)
    requires Steady(cfg, c) && Mirrors(c, e) && OnTrack(cfg, c.applied, pieces)
    requires pieces != [] && IsRemoval(pieces[0]) ==> GroupIdle(c)
    ensures var d := RunPieces(cfg, c, pieces); Advances(c, d) && Mirrors(d, Then(e, c, d))
    decreases |pieces|
  {
    if pieces == [] {
      assert SentSince(c, c) == [];
    } else if Blocked(c.pending, pieces[0]) {
      assert SentSince(c, c.(deferred := true)) == [];
    } else {
      var d := SentPiece(cfg, c, pieces[0]);
      PieceStep(cfg, c, pieces);
      TrackRest(cfg, c.applied, pieces);
      PieceAdvances(cfg, c, pieces[0]);
      PieceMirrors(cfg, c, e, pieces[0]);
      PiecesMirror(cfg, d, Then(e, c, d), pieces[1..]);
      ThenChains(e, c, d, RunPieces(cfg, d, pieces[1..]));
    }
  }

  lemma FirehoseMirrors(cfg: Config, c: Conn, e: Server)
    requires Steady(cfg, c) && Mirrors(c, e) && c.pending == map[]
    ensures var d := AskedFirehose(cfg, c); Advances(c, d) && Mirrors(d, Then(e, c, d))
  {
    var d := AskedFirehose(cfg, c);
    if d == c {
      assert SentSince(c, d) == [];
    } else {
      assert SentSince(c, d) == [Subscribe(cfg.firehoseChannels, [])];
      ObeyedOne(e, c.nextId, Subscribe(cfg.firehoseChannels, []));
    }
  }

  lemma ReconcileMirrors(cfg: Config, c: Conn, e: Server)
    requires Steady(cfg, c) && Mirrors(c, e)
    ensures var d := Reconciled(cfg, c); Advances(c, d) && Mirrors(d, Then(e, c, d))
  {
    if c.pending != map[] {
      assert SentSince(c, Reconciled(cfg, c)) == [];
    } else {
      var d := AskedFirehose(cfg, c);
      PiecesLeadToDesired(cfg, c.applied, c.desired);
      AskedIsSteady(cfg, c);
      FirehoseMirrors(cfg, c, e);
      PiecesMirror(cfg, d, Then(e, c, d), Pieces(cfg, c));
      ThenChains(e, c, d, Reconciled(cfg, c));
    }
  }

  /** An exchange that carries what was believed before carries, once it has obeyed what was sent, what is believed
      after. */
  ghost predicate InStep(c: Conn, d: Conn) {
    Advances(c, d) && forall e: Server :: Mirrors(c, e) ==> Mirrors(d, Then(e, c, d))
  }

  lemma ReconcileInStep(cfg: Config, c: Conn, d: Conn)
    requires cfg.Valid() && d == Reconciled(cfg, c)
    ensures Steady(cfg, c) ==> InStep(c, d)
  {
    if Steady(cfg, c) {
      ReconcileAdvances(cfg, c);
      forall e: Server | Mirrors(c, e) ensures Mirrors(d, Then(e, c, d)) {
        ReconcileMirrors(cfg, c, e);
      }
    }
  }

  // ------------------------------------------------------------------ what is no change

  /** Nothing but snapshots was asked for. */
  ghost predicate OnlyAsks(c: Conn, d: Conn) {
    Advances(c, d) && forall i :: 0 <= i < |SentSince(c, d)| ==> SentSince(c, d)[i].GetSnapshot?
  }

  ghost predicate Quiet(c: Conn, d: Conn) {
    SameControl(c, d) && OnlyAsks(c, d)
  }

  lemma {:induction false} SnapshotsAreNothing(e: Server, id: int, commands: seq<Command>)
    requires forall i :: 0 <= i < |commands| ==> commands[i].GetSnapshot?
    ensures ObeyedAll(e, id, commands) == e
  {
    if commands != [] { SnapshotsAreNothing(e, id, commands[..|commands| - 1]); }
  }

  lemma QuietMirrors(c: Conn, d: Conn, e: Server)
    requires Quiet(c, d)
    ensures Then(e, c, d) == e && (Mirrors(c, e) <==> Mirrors(d, e))
  {
    SnapshotsAreNothing(e, c.nextId, SentSince(c, d));
  }

  lemma AskingIsQuiet(c: Conn, sid: Key, tickers: set<Ticker>)
    ensures Quiet(c, SnapshotAsked(c, sid, tickers))
  {
  }

  /** The same connection but for its books, its baselines and what it awaits. */
  ghost predicate SameSending(c: Conn, d: Conn) {
    SameControl(c, d) && d.nextId == c.nextId && d.sent == c.sent
  }

  lemma QuietFrom(c: Conn, d: Conn, e: Conn)
    requires SameSending(c, d) && Quiet(d, e)
    ensures Quiet(c, e)
  {
    assert SentSince(c, e) == SentSince(d, e);
  }

  lemma SameIsQuiet(c: Conn, d: Conn)
    requires SameSending(c, d)
    ensures Quiet(c, d)
  {
  }

  lemma ResyncIsQuiet(c: Conn, sid: Key, again: bool)
    ensures Quiet(c, Resynced(c, sid, again))
  {
    if IsBookSid(c, sid) && c.applied.Some? {
      var d := c.(books := Staled(c.books, c.applied.value.tickers),
          resyncing := if again then c.resyncing - {sid} else c.resyncing);
      AskingIsQuiet(d, sid, c.applied.value.tickers);
      QuietFrom(c, d, SnapshotAsked(d, sid, c.applied.value.tickers));
    } else {
      SameIsQuiet(c, c);
    }
  }

  lemma TrackingIsQuiet(c: Conn, f: Frame)
    ensures Quiet(c, Tracked(c, f))
  {
    if f.sid.Some? {
      var d := c.(lastSeq := Advanced(Known(c, f), f.sid.value, f.seqNo));
      match Judged(Known(c, f), f.sid.value, f.seqNo)
      case Skipped => ResyncIsQuiet(d, f.sid.value, true); QuietFrom(c, d, Resynced(d, f.sid.value, true));
      case Repeated => ResyncIsQuiet(d, f.sid.value, false); QuietFrom(c, d, Resynced(d, f.sid.value, false));
      case _ => SameIsQuiet(c, d);
    } else {
      SameIsQuiet(c, c);
    }
  }

  lemma DeltaIsQuiet(c: Conn, sid: Key, t: Ticker, side: Side, price: Price, delta: int)
    ensures Quiet(c, OnDelta(c, sid, t, side, price, delta))
  {
    if LiveOn(c, sid, t) && t in c.books {
      var d := c.(books := c.books[t := AfterDelta(c.books[t], side, price, delta)]);
      SameIsQuiet(c, d);
      AskingIsQuiet(d, sid, {t});
      QuietFrom(c, d, SnapshotAsked(d, sid, {t}));
    } else {
      SameIsQuiet(c, c);
    }
  }

  lemma SnapshotIsQuiet(c: Conn, sid: Key, t: Ticker, bids: seq<Level>, asks: seq<Level>)
    ensures SameSending(c, OnSnapshot(c, sid, t, bids, asks))
  {
  }

  lemma DataIsQuiet(c: Conn, f: Frame)
    ensures Quiet(c, DataApplied(c, f))
  {
    SameIsQuiet(c, c);
    if f.sid.Some? {
      match f.body
      case Snapshot(t, bids, asks) =>
        SnapshotIsQuiet(c, f.sid.value, t, bids, asks);
        SameIsQuiet(c, OnSnapshot(c, f.sid.value, t, bids, asks));
      case Delta(t, side, price, delta) => DeltaIsQuiet(c, f.sid.value, t, side, price, delta);
      case Unsubscribed => SameIsQuiet(c, c.(lastSeq := c.lastSeq - {f.sid.value}));
      case _ =>
    }
  }

  // ------------------------------------------------------------------ replies

  /** A reply to a subscribe gives it a sid, which carries what the reply says or else what was asked for. */
  ghost function Given(e: Server, id: Key, sid: Key, members: set<Ticker>): Server {
    e.(holds := e.holds[sid := if members == {} && id in e.asked then e.asked[id] else members])
  }

  /** The exchange by the time a frame of it is read. */
  ghost function Replied(e: Server, c: Conn, f: Frame): Server {
    match f.body
    case Subscribed(id, sid, _) => if id.Some? && id.value in c.pending then Given(e, id.value, sid, {}) else e
    case Okay(id, members) => if Answers(c, id, f.sid) then Given(e, id.value, f.sid.value, members) else e
    case _ => e
  }

  /** An `ok` that answers a subscribe on one of the channels it awaits. */
  ghost predicate Answers(c: Conn, id: Option<Key>, sid: Option<Key>) {
    && id.Some? && id.value in c.pending && sid.Some? && sid.value in c.channelOf
    && c.channelOf[sid.value] in c.pending[id.value].channels
  }

  lemma AnswerMirrors(cfg: Config, c: Conn, e: Server, id: Key, sid: Key, channel: Key, members: set<Ticker>)
    requires Steady(cfg, c) && Mirrors(c, e) && id in c.pending && Honest(c, id, sid, channel)
    requires c.applied.Some? && c.pending[id].group == c.applied.value.id ==>
               members == {} || members == c.applied.value.tickers
    ensures Mirrors(Bound(c, id, sid, channel), Given(e, id, sid, members))
  {
    SameChannelSameGroup(cfg, c, id, sid, channel);
  }

  /** The reply speaks of the applied group and reports other markets than it was believed to have. */
  ghost predicate Corrects(c: Conn, id: Key, members: set<Ticker>)
    requires id in c.pending
  {
    c.applied.Some? && c.pending[id].group == c.applied.value.id && members != {} && members != c.applied.value.tickers
  }

  /** The group has no other sid, and awaits none. */
  ghost predicate OnlySid(c: Conn, id: Key, sid: Key)
    requires id in c.pending && sid in c.channelOf
  {
    c.pending[id].channels == {c.channelOf[sid]}
    && forall s :: s in c.subs && c.subs[s].group == c.pending[id].group ==> s == sid
  }

  lemma CorrectedMirrors(cfg: Config, c: Conn, e: Server, id: Key, sid: Key, members: set<Ticker>)
    requires Steady(cfg, c) && Mirrors(c, e) && Answers(c, Some(id), Some(sid)) && Corrects(c, id, members)
    ensures Mirrors(Merged(Answered(c, id, sid, c.channelOf[sid]), members), Given(e, id, sid, members))
            <==> OnlySid(c, id, sid)
  {
    var channel, group := c.channelOf[sid], c.pending[id].group;
    var d, g := Merged(Answered(c, id, sid, channel), members), Given(e, id, sid, members);
    SameChannelSameGroup(cfg, c, id, sid, channel);
    assert d.applied.value.tickers == members && d.applied.value.id == group;
    if !OnlySid(c, id, sid) {
      if c.pending[id].channels != {channel} {
        assert c.pending[id].channels - {channel} != {};
        assert id in d.pending && d.pending[id].group == group && g.asked[id] == c.applied.value.tickers;
      } else {
        var s :| s in c.subs && c.subs[s].group == group && s != sid;
        assert s in d.subs && d.subs[s].group == group && g.holds[s] == c.applied.value.tickers;
      }
    }
  }

  /** An `ok` leaves the connection believing what the exchange carries, on every sid of its group, exactly when it
      reports nothing new or the group has no other sid. */
  lemma OkMirrorsIff(cfg: Config, c: Conn, e: Server, id: Key, sid: Key, members: set<Ticker>)
    requires Steady(cfg, c) && Mirrors(c, e) && Answers(c, Some(id), Some(sid))
    ensures Mirrors(HearOk(c, Some(id), Some(sid), members).conn, Given(e, id, sid, members))
            <==> (Corrects(c, id, members) ==> OnlySid(c, id, sid))
  {
    var channel, group := c.channelOf[sid], c.pending[id].group;
    var d := Answered(c, id, sid, channel);
    assert c.channelOf[sid := channel] == c.channelOf && Bound(c, id, sid, channel) == d;
    if Corrects(c, id, members) {
      CorrectedMirrors(cfg, c, e, id, sid, members);
      var m := Merged(d, members);
      AskingIsQuiet(m, sid, Unfresh(m, members));
      QuietMirrors(m, SnapshotAsked(m, sid, Unfresh(m, members)), Given(e, id, sid, members));
    } else {
      AnswerMirrors(cfg, c, e, id, sid, channel, members);
      AskingIsQuiet(d, sid, Unfresh(d, members));
      QuietMirrors(d, SnapshotAsked(d, sid, Unfresh(d, members)), Given(e, id, sid, members));
    }
  }

  lemma RefusalMirrors(cfg: Config, c: Conn, e: Server, id: Option<Key>, sid: Option<Key>)
    requires Steady(cfg, c) && Mirrors(c, e)
    ensures Mirrors(HearError(c, id, sid).conn, e)
  {
  }

  // ------------------------------------------------------------------ whole runs

  /** A frame that is no correction, or corrects the only sid of its group. */
  ghost predicate Agrees(c: Conn, f: Frame) {
    f.body.Okay? && Answers(c, f.body.id, f.sid) && Corrects(c, f.body.id.value, f.body.members) ==>
      OnlySid(c, f.body.id.value, f.sid.value)
  }

  lemma SubscribedMirrors(cfg: Config, c: Conn, e: Server, f: Frame)
    requires Steady(cfg, c) && Mirrors(c, e) && f.body.Subscribed? && HonestFrame(c, f)
    ensures Mirrors(HeardReply(c, f).conn, Replied(e, c, f))
  {
    var id := f.body.id;
    if id.Some? && id.value in c.pending {
      AnswerMirrors(cfg, c, e, id.value, f.body.sid, f.body.channel, {});
    }
  }

  lemma OkayMirrors(cfg: Config, c: Conn, e: Server, f: Frame)
    requires Steady(cfg, c) && Mirrors(c, e) && f.body.Okay? && Agrees(c, f)
    ensures Mirrors(HeardReply(c, f).conn, Replied(e, c, f))
  {
    if Answers(c, f.body.id, f.sid) { OkMirrorsIff(cfg, c, e, f.body.id.value, f.sid.value, f.body.members); }
  }

  lemma NothingIsAsked(c: Conn, d: Conn)
    requires d.sent == c.sent && d.nextId == c.nextId
    ensures OnlyAsks(c, d)
  {
  }

  lemma ReplyMirrors(cfg: Config, c: Conn, e: Server, f: Frame)
    requires Steady(cfg, c) && Mirrors(c, e) && IsReply(f.body) && HonestFrame(c, f) && Agrees(c, f)
    ensures var d := HeardReply(c, f).conn; OnlyAsks(c, d) && Mirrors(d, Replied(e, c, f))
  {
    HeardAsks(c, f);
    match f.body
    case Subscribed(_, _, _) => SubscribedMirrors(cfg, c, e, f);
    case Okay(_, _) => OkayMirrors(cfg, c, e, f);
    case Refused(id) => RefusalMirrors(cfg, c, e, id, f.sid);
  }

  lemma RefusalSends(c: Conn, id: Option<Key>, sid: Option<Key>)
    ensures OnlyAsks(c, HearError(c, id, sid).conn)
  {
    NothingIsAsked(c, HearError(c, id, sid).conn);
  }

  lemma MergingAsks(d: Conn, members: set<Ticker>)
    ensures Merged(d, members).sent == d.sent && Merged(d, members).nextId == d.nextId
  {
  }

  lemma AskingOnly(d: Conn, m: Conn, sid: Key, tickers: set<Ticker>)
    requires m.sent == d.sent && m.nextId == d.nextId
    ensures OnlyAsks(d, SnapshotAsked(m, sid, tickers))
  {
    AskingIsQuiet(m, sid, tickers);
    NothingIsAsked(d, m);
    OnlyAsksChain(d, m, SnapshotAsked(m, sid, tickers));
  }

  lemma AdoptingAsks(d: Conn, group: Key, sid: Key, channel: Key, members: set<Ticker>)
    ensures OnlyAsks(d, Adopted(d, group, sid, channel, members))
  {
    MergingAsks(d, members);
    if members == {} || d.applied.None? || d.applied.value.id != group {
      NothingIsAsked(d, d);
    } else if channel != ORDERBOOK {
      NothingIsAsked(d, Merged(d, members));
    } else {
      AskingOnly(d, Merged(d, members), sid, Unfresh(Merged(d, members), members));
    }
  }

  lemma OkAsksOnly(c: Conn, id: Key, sid: Key, members: set<Ticker>)
    requires Answers(c, Some(id), Some(sid))
    ensures OnlyAsks(c, HearOk(c, Some(id), Some(sid), members).conn)
  {
    var d := Answered(c, id, sid, c.channelOf[sid]);
    NothingIsAsked(c, d);
    AdoptingAsks(d, c.pending[id].group, sid, c.channelOf[sid], members);
    OnlyAsksChain(c, d, Adopted(d, c.pending[id].group, sid, c.channelOf[sid], members));
  }

  lemma AskingChangesNothing(c: Conn, d: Conn, e: Server)
    requires OnlyAsks(c, d)
    ensures Then(e, c, d) == e
  {
    SnapshotsAreNothing(e, c.nextId, SentSince(c, d));
  }

  lemma ResumedMirrors(cfg: Config, h: Heard, e: Server)
    requires Steady(cfg, h.conn) && Mirrors(h.conn, e)
    ensures var d := After(cfg, h); Advances(h.conn, d) && Mirrors(d, Then(e, h.conn, d))
  {
    var c := h.conn;
    if h.resumes && c.deferred && c.pending == map[] {
      var d := c.(deferred := false);
      DeferredIsSteady(cfg, c);
      ReconcileMirrors(cfg, d, e);
      assert SentSince(c, Reconciled(cfg, d)) == SentSince(d, Reconciled(cfg, d));
    } else {
      assert SentSince(c, c) == [];
    }
  }

  lemma RepliedAlike(e: Server, c: Conn, d: Conn, f: Frame)
    requires SameControl(c, d)
    ensures Replied(e, c, f) == Replied(e, d, f) && (Agrees(c, f) <==> Agrees(d, f))
  {
  }

  /** A frame that agrees leaves the connection believing what the exchange carries, with all that it then sends. */
  lemma FrameMirrors(cfg: Config, c: Conn, e: Server, f: Frame)
    requires Steady(cfg, c) && Mirrors(c, e) && HonestFrame(c, f) && Agrees(c, f)
    ensures var d := OnFrame(cfg, c, f); Advances(c, d) && Mirrors(d, Then(Replied(e, c, f), c, d))
  {
    var mid, told := Tracked(c, f), Replied(e, c, f);
    TrackingIsQuiet(c, f);
    SameControlKeeps(cfg, c, mid);
    QuietMirrors(c, mid, e);
    QuietMirrors(c, mid, told);
    RepliedAlike(e, c, mid, f);
    if IsReply(f.body) {
      var h := HeardReply(mid, f);
      HeardKeeps(cfg, mid, f);
      ReplyMirrors(cfg, mid, e, f);
      AskingChangesNothing(mid, h.conn, told);
      ResumedMirrors(cfg, h, told);
      ThenChains(told, mid, h.conn, After(cfg, h));
      ThenChains(told, c, mid, After(cfg, h));
    } else {
      DataIsQuiet(mid, f);
      QuietMirrors(mid, DataApplied(mid, f), e);
      ThenChains(e, c, mid, DataApplied(mid, f));
    }
  }

  lemma RegroupMirrors(cfg: Config, c: Conn, e: Server)
    requires Steady(cfg, c) && Mirrors(c, e)
    ensures var d := OnSetGroup(cfg, c); Advances(c, d) && Mirrors(d, Then(e, c, d))
  {
    ReconcileMirrors(cfg, c, e);
    var d := Reconciled(cfg, c);
    assert SentSince(c, OnSetGroup(cfg, c)) == SentSince(c, d);
  }

  lemma WantMirrors(c: Conn, e: Server, group: Option<Group>)
    requires Mirrors(c, e)
    ensures var d := c.(desired := group); Advances(c, d) && Mirrors(d, Then(e, c, d))
  {
    assert SentSince(c, c.(desired := group)) == [];
  }

  lemma StepMirrors(cfg: Config, w: Live, e: Server, s: Step)
    requires cfg.Valid() && Possible(cfg, w, s) && Steady(cfg, w.conn) && Mirrors(w.conn, e)
    requires s.Arrive? ==> Agrees(w.conn, s.frame)
    ensures var d := Stepped(cfg, w, s).conn;
            Advances(w.conn, d) && Mirrors(d, Then(if s.Arrive? then Replied(e, w.conn, s.frame) else e, w.conn, d))
  {
    match s
    case Want(group) => WantMirrors(w.conn, e, group);
    case Regroup => RegroupMirrors(cfg, w.conn, e);
    case Arrive(f) => FrameMirrors(cfg, w.conn, e, f);
  }

  lemma ReconcileAdvances(cfg: Config, c: Conn)
    requires cfg.Valid()
    ensures Advances(c, Reconciled(cfg, c))
  {
    if c.pending == map[] { PiecesAdvance(cfg, AskedFirehose(cfg, c), Pieces(cfg, c)); }
  }

  lemma {:induction false} PiecesAdvance(cfg: Config, c: Conn, pieces: seq<Change>)
    ensures Advances(c, RunPieces(cfg, c, pieces))
    decreases |pieces|
  {
    if pieces != [] && !Blocked(c.pending, pieces[0]) {
      PieceAdvances(cfg, c, pieces[0]);
      PiecesAdvance(cfg, SentPiece(cfg, c, pieces[0]), pieces[1..]);
    }
  }

  lemma StepAdvances(cfg: Config, w: Live, s: Step)
    requires cfg.Valid() && Possible(cfg, w, s)
    ensures Advances(w.conn, Stepped(cfg, w, s).conn)
  {
    match s
    case Want(_) =>
    case Regroup => ReconcileAdvances(cfg, w.conn);
    case Arrive(f) =>
      TrackingIsQuiet(w.conn, f);
      if IsReply(f.body) { ReplyAdvances(cfg, Tracked(w.conn, f), f); } else { DataIsQuiet(Tracked(w.conn, f), f); }
  }

  lemma HeardAsks(c: Conn, f: Frame)
    requires IsReply(f.body)
    ensures OnlyAsks(c, HeardReply(c, f).conn)
  {
    match f.body
    case Subscribed(id, sid, channel) => NothingIsAsked(c, HearSubscribed(c, id, sid, channel).conn);
    case Okay(id, members) =>
      if Answers(c, id, f.sid) { OkAsksOnly(c, id.value, f.sid.value, members); } else { NothingIsAsked(c, c); }
    case Refused(id) => RefusalSends(c, id, f.sid);
  }

  lemma ResumeAdvances(cfg: Config, h: Heard)
    requires cfg.Valid()
    ensures Advances(h.conn, After(cfg, h))
  {
    ReconcileAdvances(cfg, h.conn.(deferred := false));
  }

  lemma AdvancesChain(b: Conn, c: Conn, d: Conn)
    requires Advances(b, c) && Advances(c, d)
    ensures Advances(b, d)
  {
  }

  lemma OnlyAsksChain(b: Conn, c: Conn, d: Conn)
    requires OnlyAsks(b, c) && OnlyAsks(c, d)
    ensures OnlyAsks(b, d)
  {
    assert SentSince(b, d) == SentSince(b, c) + SentSince(c, d);
  }

  lemma ReplyAdvances(cfg: Config, c: Conn, f: Frame)
    requires cfg.Valid() && IsReply(f.body)
    ensures Advances(c, After(cfg, HeardReply(c, f)))
  {
    HeardAsks(c, f);
    ResumeAdvances(cfg, HeardReply(c, f));
    AdvancesChain(c, HeardReply(c, f).conn, After(cfg, HeardReply(c, f)));
  }

  /** The exchange after a run: every reply is its word, and it obeys all that is sent, in order. */
  ghost function Served(cfg: Config, desired: Option<Group>, books: Bus.Books, steps: seq<Step>): Server
    requires cfg.Valid()
  {
    if steps == [] then ObeyedAll(EMPTY_SERVER, 1, Opened(cfg, desired, books).conn.sent) else
      var init, s := steps[..|steps| - 1], steps[|steps| - 1];
      var w, e := Ran(cfg, desired, books, init), Served(cfg, desired, books, init);
      if !Possible(cfg, w, s) then e
      else
        StepAdvances(cfg, w, s);
        Then(if s.Arrive? then Replied(e, w.conn, s.frame) else e, w.conn, Stepped(cfg, w, s).conn)
  }

  /** No frame of the run corrects a group that has, or awaits, another sid. */
  ghost predicate AllAgree(cfg: Config, desired: Option<Group>, books: Bus.Books, steps: seq<Step>)
    requires cfg.Valid()
  {
    forall n :: 0 <= n < |steps| && steps[n].Arrive? ==>
        Agrees(Ran(cfg, desired, books, steps[..n]).conn, steps[n].frame)
  }

  lemma OpeningMirrors(cfg: Config, desired: Option<Group>, books: Bus.Books)
    requires cfg.Valid() && ValidGroup(cfg, desired)
    ensures Mirrors(Opened(cfg, desired, books).conn, Served(cfg, desired, books, []))
  {
    var c := Connecting(desired, books);
    assert Steady(cfg, c) && Mirrors(c, EMPTY_SERVER);
    ReconcileMirrors(cfg, c, EMPTY_SERVER);
    assert SentSince(c, Reconciled(cfg, c)) == Reconciled(cfg, c).sent;
  }

  lemma {:induction false} RunMirrors(cfg: Config, desired: Option<Group>, books: Bus.Books, steps: seq<Step>)
    requires cfg.Valid() && BooksByGroup(cfg) && ValidGroup(cfg, desired) && AllAgree(cfg, desired, books, steps)
    ensures Mirrors(Ran(cfg, desired, books, steps).conn, Served(cfg, desired, books, steps))
    decreases |steps|
  {
    if steps == [] {
      OpeningMirrors(cfg, desired, books);
    } else {
      var init, s := steps[..|steps| - 1], steps[|steps| - 1];
      assert forall n :: 0 <= n < |init| ==> init[..n] == steps[..n] && init[n] == steps[n];
      RunMirrors(cfg, desired, books, init);
      RunIsUpheld(cfg, desired, books, init);
      var w := Ran(cfg, desired, books, init);
      if Possible(cfg, w, s) { StepMirrors(cfg, w, Served(cfg, desired, books, init), s); }
    }
  }

  /** On every such run the exchange carries exactly the sids the connection knows, each sid of the applied group
      with exactly the applied markets; and when no `set_group` is on its way and nothing is pending or was refused,
      those are the desired ones. */
  lemma ExchangeHoldsWhatIsWanted(cfg: Config, desired: Option<Group>, books: Bus.Books, steps: seq<Step>, s: Key)
    requires cfg.Valid() && BooksByGroup(cfg) && ValidGroup(cfg, desired) && AllAgree(cfg, desired, books, steps)
    ensures var w, e := Ran(cfg, desired, books, steps), Served(cfg, desired, books, steps); var c := w.conn;
            && (s in e.holds <==> s in c.subs)
            && (c.applied.Some? && s in c.subs && c.subs[s].group == c.applied.value.id ==>
                  e.holds[s] == c.applied.value.tickers)
            && (w.waiting == 0 && c.pending == map[] && !w.refused && c.desired.Some? ==>
                  && SidsOf(c.subs, c.desired.value.id) != {}
                  && (s in SidsOf(c.subs, c.desired.value.id) ==>
                      s in e.holds && e.holds[s] == c.desired.value.tickers))
  {
    RunMirrors(cfg, desired, books, steps);
    ProtocolIsSound(cfg, desired, books, steps);
  }

  // ------------------------------------------------------------------ the subscribes of a run

  /** The subscribe for everything, or one for some markets on the group's channels. */
  ghost predicate IsFirehose(cfg: Config, command: Command) {
    command == Subscribe(cfg.firehoseChannels, [])
  }

  ghost predicate IsProper(cfg: Config, command: Command) {
    command.Subscribe? ==> IsFirehose(cfg, command) || (command.channels == cfg.groupChannels && command.tickers != [])
  }

  ghost predicate AllProper(cfg: Config, commands: seq<Command>) {
    forall i :: 0 <= i < |commands| ==> IsProper(cfg, commands[i])
  }

  ghost function FirehoseAsks(cfg: Config, commands: seq<Command>): nat {
    if commands == [] then 0 else
      FirehoseAsks(cfg, commands[..|commands| - 1]) + (if IsFirehose(cfg, commands[|commands| - 1]) then 1 else 0)
  }

  lemma {:induction false} AsksAppend(cfg: Config, a: seq<Command>, b: seq<Command>)
    ensures FirehoseAsks(cfg, a + b) == FirehoseAsks(cfg, a) + FirehoseAsks(cfg, b)
    ensures AllProper(cfg, a) && AllProper(cfg, b) ==> AllProper(cfg, a + b)
  {
    if b == [] {
      assert a + b == a;
    } else {
      AsksAppend(cfg, a, b[..|b| - 1]);
      assert (a + b)[..|a + b| - 1] == a + b[..|b| - 1];
    }
  }

  lemma {:induction false} NoAsks(cfg: Config, commands: seq<Command>)
    requires forall i :: 0 <= i < |commands| ==> !IsFirehose(cfg, commands[i])
    ensures FirehoseAsks(cfg, commands) == 0
  {
    if commands != [] { NoAsks(cfg, commands[..|commands| - 1]); }
  }

  lemma {:induction false} UpdatesOnly(sids: seq<Key>, add: bool, tickers: seq<Ticker>)
    ensures forall i :: 0 <= i < |UpdatesFor(sids, add, tickers)| ==> UpdatesFor(sids, add, tickers)[i].Update?
  {
    if sids != [] { UpdatesOnly(sids[..|sids| - 1], add, tickers); }
  }

  lemma PieceIsProper(cfg: Config, subs: map<Key, Info>, piece: Change)
    requires piece.AddGroup? ==> piece.group.tickers != {}
    ensures AllProper(cfg, CommandsOf(cfg, subs, piece)) && FirehoseAsks(cfg, CommandsOf(cfg, subs, piece)) == 0
  {
    var commands := CommandsOf(cfg, subs, piece);
    match piece {
      case AddGroup(g) =>
        var t :| t in g.tickers;
        assert t in Sorted(g.tickers);
      case RemoveGroup(_) =>
      case AddMarkets(id, ts) => UpdatesOnly(Sorted(SidsOf(subs, id)), true, ts);
      case RemoveMarkets(id, ts) => UpdatesOnly(Sorted(SidsOf(subs, id)), false, ts);
    }
    NoAsks(cfg, commands);
  }

  lemma FitsAdds(cfg: Config, applied: Option<Group>, piece: Change)
    requires Fits(cfg, applied, piece)
    ensures piece.AddGroup? ==> piece.group.tickers != {} && piece.group.id != FIREHOSE
  {
  }

  /** Between two moments the firehose was asked for `n` times, and every subscribe was as it should be. */
  ghost predicate Sends(cfg: Config, c: Conn, d: Conn, n: nat) {
    Advances(c, d) && AllProper(cfg, SentSince(c, d)) && FirehoseAsks(cfg, SentSince(c, d)) == n
  }

  lemma SendsChain(cfg: Config, b: Conn, c: Conn, d: Conn, m: nat, n: nat)
    requires Sends(cfg, b, c, m) && Sends(cfg, c, d, n)
    ensures Sends(cfg, b, d, m + n)
  {
    assert SentSince(b, d) == SentSince(b, c) + SentSince(c, d);
    AsksAppend(cfg, SentSince(b, c), SentSince(c, d));
  }

  lemma OnlyAsksSends(cfg: Config, c: Conn, d: Conn)
    requires OnlyAsks(c, d)
    ensures Sends(cfg, c, d, 0)
  {
    NoAsks(cfg, SentSince(c, d));
  }

  lemma PieceSends(cfg: Config, c: Conn, piece: Change)
    requires piece.AddGroup? ==> piece.group.tickers != {}
    ensures Sends(cfg, c, SentPiece(cfg, c, piece), 0) && SentPiece(cfg, c, piece).firehoseAsked == c.firehoseAsked
  {
    PieceAdvances(cfg, c, piece);
    PieceIsProper(cfg, c.subs, piece);
  }

  lemma {:induction false} PiecesSend(cfg: Config, c: Conn, pieces: seq<Change>)
    requires OnTrack(cfg, c.applied, pieces)
    ensures var d := RunPieces(cfg, c, pieces); Sends(cfg, c, d, 0) && d.firehoseAsked == c.firehoseAsked
    decreases |pieces|
  {
    if pieces == [] {
      NothingIsAsked(c, c);
      OnlyAsksSends(cfg, c, c);
    } else if Blocked(c.pending, pieces[0]) {
      NothingIsAsked(c, c.(deferred := true));
      OnlyAsksSends(cfg, c, c.(deferred := true));
    } else {
      var d := SentPiece(cfg, c, pieces[0]);
      TrackRest(cfg, c.applied, pieces);
      FitsAdds(cfg, c.applied, pieces[0]);
      PieceSends(cfg, c, pieces[0]);
      SentPieceFacts(cfg, c, pieces[0]);
      PiecesSend(cfg, d, pieces[1..]);
      SendsChain(cfg, c, d, RunPieces(cfg, d, pieces[1..]), 0, 0);
    }
  }

  function Once(c: bool): nat { if c then 1 else 0 }

  /** A reconciliation that is not put off asks for the firehose if there is one that was not asked for, and once. */
  lemma ReconcileAsksOnce(cfg: Config, c: Conn)
    requires Steady(cfg, c)
    ensures var d := Reconciled(cfg, c);
            if c.pending != map[] then Sends(cfg, c, d, 0) && d.firehoseAsked == c.firehoseAsked
            else Sends(cfg, c, d, Once(cfg.firehoseChannels != {} && !c.firehoseAsked))
                 && d.firehoseAsked == (c.firehoseAsked || cfg.firehoseChannels != {})
  {
    if c.pending != map[] {
      NothingIsAsked(c, Reconciled(cfg, c));
      OnlyAsksSends(cfg, c, Reconciled(cfg, c));
    } else {
      var d := AskedFirehose(cfg, c);
      PiecesLeadToDesired(cfg, c.applied, c.desired);
      FirehoseSends(cfg, c);
      PiecesSend(cfg, d, Pieces(cfg, c));
      SendsChain(cfg, c, d, Reconciled(cfg, c), Once(cfg.firehoseChannels != {} && !c.firehoseAsked), 0);
    }
  }

  lemma FirehoseSends(cfg: Config, c: Conn)
    ensures var d := AskedFirehose(cfg, c);
            && Sends(cfg, c, d, Once(cfg.firehoseChannels != {} && !c.firehoseAsked))
            && d.firehoseAsked == (c.firehoseAsked || cfg.firehoseChannels != {})
  {
    var d := AskedFirehose(cfg, c);
    if d == c {
      NothingIsAsked(c, c);
      OnlyAsksSends(cfg, c, c);
    } else {
      assert SentSince(c, d) == [Subscribe(cfg.firehoseChannels, [])];
      assert SentSince(c, d)[..0] == [];
      assert FirehoseAsks(cfg, SentSince(c, d)) == FirehoseAsks(cfg, []) + 1;
    }
  }

  /** The frame refuses the firehose's own subscribe. */
  ghost predicate RefusesFirehose(c: Conn, f: Frame) {
    f.body.Refused? && f.body.id.Some? && f.body.id.value in c.pending && c.pending[f.body.id.value].group == FIREHOSE
  }

  /** The firehose was asked for as often as it was refused, and once more if it still is. */
  ghost predicate AskedEnough(cfg: Config, c: Conn, refusals: nat) {
    && AllProper(cfg, c.sent) && FirehoseAsks(cfg, c.sent) == refusals + Once(c.firehoseAsked)
    && (forall k :: k in c.pending && c.pending[k].group == FIREHOSE ==> c.firehoseAsked)
  }

  lemma SendsKeeps(cfg: Config, c: Conn, d: Conn, n: nat, refusals: nat)
    requires AllProper(cfg, c.sent) && Sends(cfg, c, d, n)
    ensures AllProper(cfg, d.sent) && FirehoseAsks(cfg, d.sent) == FirehoseAsks(cfg, c.sent) + n
  {
    assert d.sent == c.sent + SentSince(c, d);
    AsksAppend(cfg, c.sent, SentSince(c, d));
  }

  lemma PieceAwaitsGroup(cfg: Config, c: Conn, piece: Change, k: Key)
    requires piece.AddGroup? ==> piece.group.id != FIREHOSE
    ensures var d := SentPiece(cfg, c, piece);
            k in d.pending && d.pending[k].group == FIREHOSE ==> k in c.pending && c.pending[k].group == FIREHOSE
  {
  }

  lemma {:induction false} PiecesAwaitGroup(cfg: Config, c: Conn, pieces: seq<Change>, k: Key)
    requires OnTrack(cfg, c.applied, pieces)
    ensures var d := RunPieces(cfg, c, pieces);
            k in d.pending && d.pending[k].group == FIREHOSE ==> k in c.pending && c.pending[k].group == FIREHOSE
    decreases |pieces|
  {
    if pieces != [] && !Blocked(c.pending, pieces[0]) {
      TrackRest(cfg, c.applied, pieces);
      FitsAdds(cfg, c.applied, pieces[0]);
      SentPieceFacts(cfg, c, pieces[0]);
      PieceAwaitsGroup(cfg, c, pieces[0], k);
      PiecesAwaitGroup(cfg, SentPiece(cfg, c, pieces[0]), pieces[1..], k);
    }
  }

  lemma ReconcileKeepsAsked(cfg: Config, c: Conn, refusals: nat)
    requires Steady(cfg, c) && AskedEnough(cfg, c, refusals)
    ensures AskedEnough(cfg, Reconciled(cfg, c), refusals)
  {
    var d := Reconciled(cfg, c);
    ReconcileAsksOnce(cfg, c);
    if c.pending != map[] {
      SendsKeeps(cfg, c, d, 0, refusals);
    } else {
      SendsKeeps(cfg, c, d, Once(cfg.firehoseChannels != {} && !c.firehoseAsked), refusals);
      PiecesLeadToDesired(cfg, c.applied, c.desired);
      forall k | k in d.pending && d.pending[k].group == FIREHOSE ensures d.firehoseAsked {
        PiecesAwaitGroup(cfg, AskedFirehose(cfg, c), Pieces(cfg, c), k);
      }
    }
  }

  lemma SameControlKeepsAsked(cfg: Config, c: Conn, d: Conn, refusals: nat)
    requires AskedEnough(cfg, c, refusals) && OnlyAsks(c, d) && d.firehoseAsked == c.firehoseAsked
    requires forall k :: k in d.pending && d.pending[k].group == FIREHOSE ==>
               k in c.pending && c.pending[k].group == FIREHOSE
    ensures AskedEnough(cfg, d, refusals)
  {
    OnlyAsksSends(cfg, c, d);
    SendsKeeps(cfg, c, d, 0, refusals);
  }

  lemma RefusalKeepsAsked(cfg: Config, c: Conn, f: Frame, refusals: nat)
    requires Steady(cfg, c) && AskedEnough(cfg, c, refusals) && f.body.Refused?
    ensures AskedEnough(cfg, HearError(c, f.body.id, f.sid).conn, refusals + Once(RefusesFirehose(c, f)))
  {
    var d := HearError(c, f.body.id, f.sid).conn;
    assert d.sent == c.sent;
    if RefusesFirehose(c, f) {
      assert c.firehoseAsked && !d.firehoseAsked;
      assert forall k :: k in d.pending && d.pending[k].group == FIREHOSE ==> k == f.body.id.value;
    }
  }

  lemma AnsweredKeepsAsked(cfg: Config, c: Conn, id: Key, sid: Key, channel: Key)
    requires id in c.pending
    ensures var d := Answered(c, id, sid, channel);
            && d.firehoseAsked == c.firehoseAsked
            && forall k :: k in d.pending ==> k in c.pending && d.pending[k].group == c.pending[k].group
  {
  }

  lemma AdoptedKeepsAsked(c: Conn, group: Key, sid: Key, channel: Key, members: set<Ticker>)
    ensures var d := Adopted(c, group, sid, channel, members);
            d.firehoseAsked == c.firehoseAsked && d.pending == c.pending
  {
    MergedKeepsAsked(c, members);
    SnapshotAskedKeeps(Merged(c, members), sid, Unfresh(Merged(c, members), members));
  }

  lemma MergedKeepsAsked(c: Conn, members: set<Ticker>)
    ensures Merged(c, members).firehoseAsked == c.firehoseAsked && Merged(c, members).pending == c.pending
  {
  }

  lemma SubscribedKeepsAsked(cfg: Config, c: Conn, id: Option<Key>, sid: Key, channel: Key, refusals: nat)
    requires AskedEnough(cfg, c, refusals)
    ensures AskedEnough(cfg, HearSubscribed(c, id, sid, channel).conn, refusals)
  {
    if id.Some? && id.value in c.pending {
      AnsweredKeepsAsked(cfg, c.(channelOf := c.channelOf[sid := channel]), id.value, sid, channel);
    }
    NothingIsAsked(c, HearSubscribed(c, id, sid, channel).conn);
    SameControlKeepsAsked(cfg, c, HearSubscribed(c, id, sid, channel).conn, refusals);
  }

  lemma OkayKeepsAsked(cfg: Config, c: Conn, id: Key, sid: Key, members: set<Ticker>, refusals: nat)
    requires AskedEnough(cfg, c, refusals) && Answers(c, Some(id), Some(sid))
    ensures AskedEnough(cfg, HearOk(c, Some(id), Some(sid), members).conn, refusals)
  {
    var channel := c.channelOf[sid];
    AnsweredKeepsAsked(cfg, c, id, sid, channel);
    AdoptedKeepsAsked(Answered(c, id, sid, channel), c.pending[id].group, sid, channel, members);
    OkAsksOnly(c, id, sid, members);
    SameControlKeepsAsked(cfg, c, HearOk(c, Some(id), Some(sid), members).conn, refusals);
  }

  lemma ReplyKeepsAsked(cfg: Config, c: Conn, f: Frame, refusals: nat)
    requires Steady(cfg, c) && AskedEnough(cfg, c, refusals) && IsReply(f.body)
    ensures AskedEnough(cfg, HeardReply(c, f).conn, refusals + Once(RefusesFirehose(c, f)))
  {
    match f.body
    case Subscribed(id, sid, channel) => SubscribedKeepsAsked(cfg, c, id, sid, channel, refusals);
    case Okay(id, members) =>
      if Answers(c, id, f.sid) { OkayKeepsAsked(cfg, c, id.value, f.sid.value, members, refusals); }
    case Refused(_) => RefusalKeepsAsked(cfg, c, f, refusals);
  }

  lemma ResumeKeepsAsked(cfg: Config, h: Heard, refusals: nat)
    requires Steady(cfg, h.conn) && AskedEnough(cfg, h.conn, refusals)
    ensures AskedEnough(cfg, After(cfg, h), refusals)
  {
    DeferredIsSteady(cfg, h.conn);
    if h.resumes && h.conn.deferred && h.conn.pending == map[] {
      ReconcileKeepsAsked(cfg, h.conn.(deferred := false), refusals);
    }
  }

  lemma FrameKeepsAsked(cfg: Config, c: Conn, f: Frame, refusals: nat)
    requires Steady(cfg, c) && AskedEnough(cfg, c, refusals) && HonestFrame(c, f)
    ensures AskedEnough(cfg, OnFrame(cfg, c, f), refusals + Once(RefusesFirehose(c, f)))
  {
    var mid := Tracked(c, f);
    TrackingIsQuiet(c, f);
    SameControlKeeps(cfg, c, mid);
    SameControlKeepsAsked(cfg, c, mid, refusals);
    if IsReply(f.body) {
      HeardKeeps(cfg, mid, f);
      ReplyKeepsAsked(cfg, mid, f, refusals);
      ResumeKeepsAsked(cfg, HeardReply(mid, f), refusals + Once(RefusesFirehose(mid, f)));
    } else {
      DataIsQuiet(mid, f);
      SameControlKeepsAsked(cfg, mid, DataApplied(mid, f), refusals);
    }
  }

  /** How often a run refused the firehose. */
  ghost function Refusals(cfg: Config, desired: Option<Group>, books: Bus.Books, steps: seq<Step>): nat
    requires cfg.Valid()
  {
    if steps == [] then 0 else
      var init, s := steps[..|steps| - 1], steps[|steps| - 1];
      var w := Ran(cfg, desired, books, init);
      Refusals(cfg, desired, books, init)
          + Once(Possible(cfg, w, s) && s.Arrive? && RefusesFirehose(w.conn, s.frame))
  }

  lemma OpeningAsks(cfg: Config, desired: Option<Group>, books: Bus.Books)
    requires cfg.Valid() && ValidGroup(cfg, desired)
    ensures AskedEnough(cfg, Opened(cfg, desired, books).conn, 0)
    ensures cfg.firehoseChannels != {} ==> FirehoseAsks(cfg, Opened(cfg, desired, books).conn.sent) == 1
  {
    var c := Connecting(desired, books);
    assert Steady(cfg, c) && AskedEnough(cfg, c, 0);
    ReconcileKeepsAsked(cfg, c, 0);
    ReconcileAsksOnce(cfg, c);
  }

  lemma {:induction false} RunAskedEnough(cfg: Config, desired: Option<Group>, books: Bus.Books, steps: seq<Step>)
    requires cfg.Valid() && BooksByGroup(cfg) && ValidGroup(cfg, desired)
    ensures AskedEnough(cfg, Ran(cfg, desired, books, steps).conn, Refusals(cfg, desired, books, steps))
  {
    if steps == [] {
      OpeningAsks(cfg, desired, books);
    } else {
      var init, s := steps[..|steps| - 1], steps[|steps| - 1];
      RunAskedEnough(cfg, desired, books, init);
      RunIsUpheld(cfg, desired, books, init);
      var w, n := Ran(cfg, desired, books, init), Refusals(cfg, desired, books, init);
      if Possible(cfg, w, s) {
        match s
        case Want(_) =>
        case Regroup => ReconcileKeepsAsked(cfg, w.conn, n);
        case Arrive(f) => FrameKeepsAsked(cfg, w.conn, f, n);
      }
    }
  }

  lemma {:induction false} FirehoseIsAsked(cfg: Config, desired: Option<Group>, books: Bus.Books, steps: seq<Step>)
    requires cfg.Valid() && ValidGroup(cfg, desired) && cfg.firehoseChannels != {}
    ensures FirehoseAsks(cfg, Ran(cfg, desired, books, steps).conn.sent) >= 1
  {
    if steps == [] {
      OpeningAsks(cfg, desired, books);
    } else {
      var init, s := steps[..|steps| - 1], steps[|steps| - 1];
      FirehoseIsAsked(cfg, desired, books, init);
      var w := Ran(cfg, desired, books, init);
      if Possible(cfg, w, s) {
        StepAdvances(cfg, w, s);
        var d := Stepped(cfg, w, s).conn;
        assert d.sent == w.conn.sent + SentSince(w.conn, d);
        AsksAppend(cfg, w.conn.sent, SentSince(w.conn, d));
      }
    }
  }

  /** On every run each subscribe is the firehose's, or names some markets and the group's channels; and the firehose
      is asked for again only after an error frame refused it. */
  lemma FirehoseIsAskedOnce(cfg: Config, desired: Option<Group>, books: Bus.Books, steps: seq<Step>, i: nat)
    requires cfg.Valid() && BooksByGroup(cfg) && ValidGroup(cfg, desired)
    ensures var c := Ran(cfg, desired, books, steps).conn; var n := Refusals(cfg, desired, books, steps);
            && n <= FirehoseAsks(cfg, c.sent) <= n + 1
            && (cfg.firehoseChannels != {} ==> FirehoseAsks(cfg, c.sent) >= 1)
            && (i < |c.sent| && c.sent[i].Subscribe? ==>
                  c.sent[i] == Subscribe(cfg.firehoseChannels, [])
                  || (c.sent[i].channels == cfg.groupChannels && c.sent[i].tickers != []))
  {
    RunAskedEnough(cfg, desired, books, steps);
    if cfg.firehoseChannels != {} { FirehoseIsAsked(cfg, desired, books, steps); }
    var c := Ran(cfg, desired, books, steps).conn;
    assert i < |c.sent| ==> IsProper(cfg, c.sent[i]);
  }
}
