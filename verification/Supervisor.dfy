/** One recorder connection as the object it is: fields that the lock-held sections and the frame handler
    update step by step, each proved against the transition it stands for in `Subscription` and `Feed`. */
module Supervisor {
  import opened Prelude
  import opened OrderBook
  import Bus
  import opened Planner
  import opened Subscription
  import opened Feed
  import Exchange

  // ------------------------------------------------------------------ gaps.py

  /** What the tracker remembers about one subscription. */
  datatype SidState = SidState(lastSeq: Option<int>, messages: nat, gaps: nat, duplicates: nat)

  /** The baselines alone, which is all that any verdict depends on. */
  function Baselines(states: map<Key, SidState>): map<Key, int> {
    map s | s in states && states[s].lastSeq.Some? :: states[s].lastSeq.value
  }

  class GapTracker {
    var states: map<Key, SidState>

    constructor ()
      ensures states == map[]
    {
      states := map[];
    }

    /** The verdict and the new baseline are the transition's; each verdict is counted once. */
    method Observe(sid: Key, seqNo: Option<int>) returns (verdict: Verdict)
      modifies this
      ensures verdict == Judged(Baselines(old(states)), sid, seqNo)
      ensures Baselines(states) == Advanced(Baselines(old(states)), sid, seqNo)
      ensures states.Keys == old(states).Keys + {sid}
      ensures forall s :: s in old(states) && s != sid ==> states[s] == old(states)[s]
      ensures var was := if sid in old(states) then old(states)[sid] else SidState(None, 0, 0, 0);
              && states[sid].messages == was.messages + 1
              && states[sid].gaps == was.gaps + (if verdict == Skipped then 1 else 0)
              && states[sid].duplicates == was.duplicates + (if verdict == Repeated then 1 else 0)
    {
      var state := if sid in states then states[sid] else SidState(None, 0, 0, 0);
      state := state.(messages := state.messages + 1);
      if seqNo.None? {
        verdict := InOrder;
      } else if state.lastSeq.None? {
        state := state.(lastSeq := seqNo);
        verdict := Baseline;
      } else if seqNo.value == state.lastSeq.value + 1 {
        state := state.(lastSeq := seqNo);
        verdict := InOrder;
      } else if seqNo.value > state.lastSeq.value + 1 {
        state := state.(lastSeq := seqNo, gaps := state.gaps + 1);
        verdict := Skipped;
      } else {
        state := state.(duplicates := state.duplicates + 1);
        verdict := Repeated;
      }
      states := states[sid := state];
    }

    /** Forgets the baseline, keeps the counters. */
    method Reset(sid: Key)
      modifies this
      ensures Baselines(states) == Baselines(old(states)) - {sid}
      ensures states.Keys == old(states).Keys
      ensures forall s ::
              s in states ==> states[s] == (if s == sid then old(states)[s].(lastSeq := None) else old(states)[s])
    {
      if sid in states { states := states[sid := states[sid].(lastSeq := None)]; }
    }

    method Forget(sid: Key)
      modifies this
      ensures states == old(states) - {sid}
      ensures Baselines(states) == Baselines(old(states)) - {sid}
    {
      states := states - {sid};
    }
  }

  // ------------------------------------------------------------------ loops over markets

  method StaleEach(books: Bus.Books, tickers: seq<Ticker>) returns (r: Bus.Books)
    ensures r == Staled(books, Elems(tickers))
  {
    r := books;
    for i := 0 to |tickers|
      invariant r == Staled(books, Elems(tickers[..i]))
    {
      assert tickers[..i + 1] == tickers[..i] + [tickers[i]];
      if tickers[i] in r { r := r[tickers[i] := r[tickers[i]].(stale := true)]; }
    }
    assert tickers[..|tickers|] == tickers;
  }

  method ReleaseEach(books: Bus.Books, tickers: seq<Ticker>, wanted: set<Ticker>) returns (r: Bus.Books)
    ensures r == Released(books, Elems(tickers), wanted)
  {
    r := books;
    for i := 0 to |tickers|
      invariant r == Released(books, Elems(tickers[..i]), wanted)
    {
      assert tickers[..i + 1] == tickers[..i] + [tickers[i]];
      if tickers[i] in wanted {
        if tickers[i] in r { r := r[tickers[i] := r[tickers[i]].(stale := true)]; }
      } else {
        r := r - {tickers[i]};
      }
    }
    assert tickers[..|tickers|] == tickers;
  }

  method PruneEach(books: Bus.Books, keep: set<Ticker>) returns (r: Bus.Books)
    ensures r == Pruned(books, keep)
  {
    var left := books.Keys - keep;
    r := books;
    while left != {}
      invariant left <= books.Keys - keep
      invariant r == books - (books.Keys - keep - left)
      decreases |left|
    {
      var t :| t in left;
      left := left - {t};
      r := r - {t};
    }
  }

  method UpdateEach(sids: seq<Key>, add: bool, tickers: seq<Ticker>) returns (r: seq<Command>)
    ensures r == UpdatesFor(sids, add, tickers)
  {
    r := [];
    for i := 0 to |sids|
      invariant r == UpdatesFor(sids[..i], add, tickers)
    {
      assert sids[..i + 1][..i] == sids[..i];
      r := r + [Update(sids[i], add, tickers)];
    }
    assert sids[..|sids|] == sids;
  }

  method ToCommands(cfg: Config, subs: map<Key, Info>, piece: Change) returns (r: seq<Command>)
    ensures r == CommandsOf(cfg, subs, piece)
  {
    match piece
    case AddGroup(g) =>
      var ts := SortKeys(g.tickers);
      r := [Subscribe(cfg.groupChannels, ts)];
    case RemoveGroup(id) =>
      var sids := SortKeys(SidsOf(subs, id));
      r := [Unsubscribe(sids)];
    case AddMarkets(id, ts) =>
      var sids := SortKeys(SidsOf(subs, id));
      r := UpdateEach(sids, true, ts);
    case RemoveMarkets(id, ts) =>
      var sids := SortKeys(SidsOf(subs, id));
      r := UpdateEach(sids, false, ts);
  }

  // ------------------------------------------------------------------ supervisor.py

  function PlanFor(g: Option<Group>): (p: Plan)
    ensures p == PlanOf(g)
  {
    if g.None? then map[] else map[g.value.id := g.value]
  }

  lemma NextPiece(cfg: Config, c: Conn, pieces: seq<Change>, i: nat)
    requires i < |pieces|
    ensures RunPieces(cfg, c, pieces[i..]) ==
            if Blocked(c.pending, pieces[i]) then c.(deferred := true) else
                RunPieces(cfg, SentPiece(cfg, c, pieces[i]), pieces[i + 1..])
  {
    assert pieces[i..][0] == pieces[i] && pieces[i..][1..] == pieces[i + 1..];
  }

  class ConnectionSupervisor {
    const cfg: Config
    const tracker: GapTracker
    var desired: Option<Group>
    var applied: Option<Group>
    var subs: map<Key, Info>
    var channelOf: map<Key, Key>
    var pending: map<Key, Pending>
    var nextId: int
    var deferred: bool
    var firehoseAsked: bool
    var books: Bus.Books
    var resyncing: map<Key, set<Ticker>>
    var sent: seq<Command>

    ghost function View(): Conn
      reads this, tracker
    {
      Conn(desired, applied, subs, channelOf, pending, nextId, deferred, firehoseAsked, books, resyncing,
          Baselines(tracker.states), sent)
    }

    constructor (cfg: Config, desired: Option<Group>, books: Bus.Books)
      requires cfg.Valid()
      ensures this.cfg == cfg && fresh(tracker)
      ensures View() ==
              Conn(desired, None, map[], map[], map[], 1, false, false, Staled(books, books.Keys), map[], map[], [])
    {
      this.cfg, this.desired, applied := cfg, desired, None;
      subs, channelOf, pending, resyncing := map[], map[], map[], map[];
      nextId, deferred, firehoseAsked, sent := 1, false, false, [];
      tracker := new GapTracker();
      this.books := map t | t in books :: books[t].(stale := true);
    }

    method Send(command: Command) returns (id: Key)
      modifies this`nextId, this`sent
      ensures id == Key(old(nextId)) && nextId == old(nextId) + 1 && sent == old(sent) + [command]
    {
      id := Key(nextId);
      nextId, sent := nextId + 1, sent + [command];
    }

    method RequestSnapshot(sid: Key, tickers: set<Ticker>)
      modifies this`resyncing, this`nextId, this`sent
      ensures View() == SnapshotAsked(old(View()), sid, tickers)
    {
      var awaiting := if sid in resyncing then resyncing[sid] else {};
      var wanted := tickers - awaiting;
      resyncing := resyncing[sid := awaiting + wanted];
      if wanted != {} {
        var ts := SortKeys(wanted);
        var _ := Send(GetSnapshot(sid, ts));
      }
    }

    method ResyncConnection(sid: Key, again: bool)
      modifies this`books, this`resyncing, this`nextId, this`sent
      ensures View() == Resynced(old(View()), sid, again)
    {
      if sid !in subs || subs[sid].channel != ORDERBOOK || applied.None? { return; }
      var ts := SortKeys(applied.value.tickers);
      SortedElems(applied.value.tickers);
      books := StaleEach(books, ts);
      if again { resyncing := resyncing - {sid}; }
      RequestSnapshot(sid, applied.value.tickers);
    }

    /** The part of `_on_frame` before the dispatch. */
    method Track(f: Frame)
      modifies this`books, this`resyncing, this`nextId, this`sent, tracker
      ensures View() == Tracked(old(View()), f)
    {
      if f.sid.None? { return; }
      var sid := f.sid.value;
      if LooksLikeSnapshot(f.body) && sid in resyncing { tracker.Reset(sid); }
      var verdict := tracker.Observe(sid, f.seqNo);
      if verdict == Skipped {
        ResyncConnection(sid, true);
      } else if verdict == Repeated {
        ResyncConnection(sid, false);
      }
    }

    method RecordChange(piece: Change)
      modifies this`applied, this`subs, this`resyncing, this`books
      ensures View() == Recorded(old(View()), piece)
    {
      match piece
      case AddGroup(g) => applied := Some(g);
      case RemoveGroup(id) =>
        var gone := TickersOf(applied);
        applied := None;
        subs, resyncing := subs - SidsOf(subs, id), resyncing - SidsOf(subs, id);
        var ts := SortKeys(gone);
        SortedElems(gone);
        books := ReleaseEach(books, ts, TickersOf(desired));
      case AddMarkets(_, ts) =>
        if applied.Some? { applied := Some(applied.value.(tickers := applied.value.tickers + Elems(ts))); }
      case RemoveMarkets(_, ts) =>
        if applied.Some? { applied := Some(applied.value.(tickers := applied.value.tickers - Elems(ts))); }
        books := ReleaseEach(books, ts, TickersOf(desired));
    }

    method SendPiece(piece: Change)
      modifies this`applied, this`subs, this`resyncing, this`books, this`pending, this`nextId, this`sent
      ensures View() == SentPiece(cfg, old(View()), piece)
    {
      var commands := ToCommands(cfg, subs, piece);
      if piece.AddGroup? { pending := pending[Key(nextId) := Pending(piece.group.id, cfg.groupChannels)]; }
      nextId, sent := nextId + |commands|, sent + commands;
      RecordChange(piece);
    }

    /** The firehose is subscribed to once. */
    method AskFirehose()
      modifies this`firehoseAsked, this`pending, this`nextId, this`sent
      ensures View() == AskedFirehose(cfg, old(View()))
    {
      if cfg.firehoseChannels != {} && !firehoseAsked {
        firehoseAsked := true;
        var id := Send(Subscribe(cfg.firehoseChannels, []));
        pending := pending[id := Pending(FIREHOSE, cfg.firehoseChannels)];
      }
    }

    /** `_reconcile_locked`, on an open session. */
    method ReconcileLocked()
      requires cfg.Valid()
      modifies this
      ensures View() == Reconciled(cfg, old(View()))
      ensures Steady(cfg, old(View())) ==> Exchange.InStep(old(View()), View())
    {
      ghost var before := View();
      if pending != map[] {
        deferred := true;
        Exchange.ReconcileInStep(cfg, before, View());
        return;
      }
      AskFirehose();
      var changes := ComputeDiff(PlanFor(applied), PlanFor(desired));
      var pieces := SplitChanges(changes, cfg.maxMarkets);
      RunLoop(pieces);
      Exchange.ReconcileInStep(cfg, before, View());
    }

    method RunLoop(pieces: seq<Change>)
      modifies this
      ensures View() == RunPieces(cfg, old(View()), pieces)
    {
      ghost var c := View();
      var i := 0;
      while i < |pieces|
        invariant 0 <= i <= |pieces|
        invariant RunPieces(cfg, c, pieces) == RunPieces(cfg, View(), pieces[i..])
      {
        NextPiece(cfg, View(), pieces, i);
        if (pieces[i].AddMarkets? || pieces[i].RemoveMarkets?) && Subscribing(pending, pieces[i].id) {
          deferred := true;
          return;
        }
        SendPiece(pieces[i]);
        i := i + 1;
      }
    }

    /** `_answer`. */
    method Answer(id: Key, sid: Key, channel: Key)
      requires id in pending
      modifies this`subs, this`pending
      ensures View() == Answered(old(View()), id, sid, channel)
    {
      var subscribe := pending[id];
      subs := subs[sid := Info(channel, subscribe.group)];
      subscribe := subscribe.(channels := subscribe.channels - {channel});
      if subscribe.channels == {} { pending := pending - {id}; } else { pending := pending[id := subscribe]; }
    }

    method ResumeReconcile()
      requires cfg.Valid()
      modifies this
      ensures View() == Resumed(cfg, old(View()))
    {
      if deferred && pending == map[] {
        deferred := false;
        ReconcileLocked();
      }
    }

    method OnSubscribed(id: Option<Key>, sid: Key, channel: Key)
      requires cfg.Valid()
      modifies this
      ensures View() == After(cfg, HearSubscribed(old(View()), id, sid, channel))
    {
      channelOf := channelOf[sid := channel];
      if id.None? || id.value !in pending { return; }
      Answer(id.value, sid, channel);
      ResumeReconcile();
    }

    method AdoptMembership(group: Key, sid: Key, channel: Key, members: set<Ticker>)
      modifies this`applied, this`deferred, this`resyncing, this`nextId, this`sent
      ensures View() == Adopted(old(View()), group, sid, channel, members)
    {
      if members == {} || applied.None? || applied.value.id != group { return; }
      if members != applied.value.tickers {
        applied := Some(applied.value.(tickers := members));
        deferred := true;
      }
      if channel != ORDERBOOK { return; }
      RequestSnapshot(sid, UnfreshOf(members, TickersOf(desired), books));
    }

    method OnOk(id: Option<Key>, sid: Option<Key>, members: set<Ticker>)
      requires cfg.Valid()
      modifies this
      ensures View() == After(cfg, HearOk(old(View()), id, sid, members))
    {
      if id.None? || id.value !in pending { return; }
      if sid.None? || sid.value !in channelOf || channelOf[sid.value] !in pending[id.value].channels { return; }
      var channel, group := channelOf[sid.value], pending[id.value].group;
      Answer(id.value, sid.value, channel);
      AdoptMembership(group, sid.value, channel, members);
      ResumeReconcile();
    }

    method OnError(id: Option<Key>, sid: Option<Key>)
      requires cfg.Valid()
      modifies this
      ensures View() == After(cfg, HearError(old(View()), id, sid))
    {
      if sid.Some? { resyncing := resyncing - {sid.value}; }
      if id.None? || id.value !in pending { return; }
      Deny(id.value);
      ResumeReconcile();
    }

    method Deny(id: Key)
      requires id in pending
      modifies this`pending, this`firehoseAsked, this`applied
      ensures View() == Denied(old(View()), id)
    {
      var group := pending[id].group;
      pending := pending - {id};
      if group == FIREHOSE {
        firehoseAsked := false;
      } else if SidsOf(subs, group) == {} {
        applied := None;
      }
    }

    /** `set_group` under the lock. */
    method SetGroupLocked()
      requires cfg.Valid()
      modifies this
      ensures View() == OnSetGroup(cfg, old(View()))
    {
      ReconcileLocked();
      books := PruneEach(books, TickersOf(desired) + TickersOf(applied));
    }
  }
}
