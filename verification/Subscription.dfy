/** The subscription protocol of one connection as a state machine whose steps are the supervisor's
    lock-held sections: `src/tape/recorder/supervisor.py`. */
module Subscription {
  import opened Prelude
  import opened OrderBook
  import opened Bus
  import opened Planner

  const ORDERBOOK := Key(0)
  const FIREHOSE := Key(-1)

  datatype Config = Config(conn: Key, groupChannels: set<Key>, firehoseChannels: set<Key>, maxMarkets: nat) {
    ghost predicate Valid() {
      maxMarkets >= 1 && groupChannels !! firehoseChannels
    }
  }

  datatype Pending = Pending(group: Key, channels: set<Key>)
  datatype Info = Info(channel: Key, group: Key)

  datatype Command =
    | Subscribe(channels: set<Key>, tickers: seq<Ticker>)
    | Unsubscribe(sids: seq<Key>)
    | Update(sid: Key, add: bool, tickers: seq<Ticker>)
    | GetSnapshot(sid: Key, tickers: seq<Ticker>)

  /** One live connection: what is wanted, what was sent, what was answered, and the books it feeds.
      `lastSeq` holds the baseline of every sid that has one. */
  datatype Conn = Conn(
    desired: Option<Group>, applied: Option<Group>, subs: map<Key, Info>, channelOf: map<Key, Key>,
    pending: map<Key, Pending>, nextId: int, deferred: bool, firehoseAsked: bool,
    books: Books, resyncing: map<Key, set<Ticker>>, lastSeq: map<Key, int>, sent: seq<Command>)

  ghost function PlanOf(g: Option<Group>): Plan {
    if g.None? then map[] else map[g.value.id := g.value]
  }

  function TickersOf(g: Option<Group>): set<Ticker> {
    if g.None? then {} else g.value.tickers
  }

  ghost predicate ValidGroup(cfg: Config, g: Option<Group>) {
    g.Some? ==> g.value.conn == cfg.conn && g.value.tickers != {} && g.value.id != FIREHOSE && cfg.groupChannels != {}
  }

  predicate Subscribing(pending: map<Key, Pending>, id: Key) {
    exists k :: k in pending && pending[k].group == id
  }

  function SidsOf(subs: map<Key, Info>, id: Key): set<Key> {
    set s | s in subs && subs[s].group == id
  }

  ghost predicate HasSid(c: Conn, id: Key) {
    SidsOf(c.subs, id) != {}
  }

  // ------------------------------------------------------------------ books that leave

  /** `_release_books`: books of markets still wanted go stale, the others are dropped. */
  ghost function Released(books: Books, tickers: set<Ticker>, wanted: set<Ticker>): Books {
    map t | t in books && (t !in tickers || t in wanted) :: if t in tickers then books[t].(stale := true) else books[t]
  }

  ghost function Pruned(books: Books, keep: set<Ticker>): Books {
    map t | t in books && t in keep :: books[t]
  }

  // ------------------------------------------------------------------ sending the pieces of a change

  ghost function UpdatesFor(sids: seq<Key>, add: bool, tickers: seq<Ticker>): seq<Command> {
    if sids == [] then [] else UpdatesFor(sids[..|sids| - 1], add, tickers) + [Update(sids[|sids| - 1], add, tickers)]
  }

  /** `to_commands` for one piece; the lookup of a group without a sid would raise. */
  ghost function CommandsOf(cfg: Config, subs: map<Key, Info>, piece: Change): seq<Command> {
    match piece
    case AddGroup(g) => [Subscribe(cfg.groupChannels, Sorted(g.tickers))]
    case RemoveGroup(id) => [Unsubscribe(Sorted(SidsOf(subs, id)))]
    case AddMarkets(id, ts) => UpdatesFor(Sorted(SidsOf(subs, id)), true, ts)
    case RemoveMarkets(id, ts) => UpdatesFor(Sorted(SidsOf(subs, id)), false, ts)
  }

  /** The group a change leaves applied. */
  ghost function Carried(applied: Option<Group>, piece: Change): Option<Group> {
    match piece
    case AddGroup(g) => Some(g)
    case RemoveGroup(_) => None
    case AddMarkets(_, ts) => if applied.None? then None else
        Some(applied.value.(tickers := applied.value.tickers + Elems(ts)))
    case RemoveMarkets(_, ts) => if applied.None? then None else
        Some(applied.value.(tickers := applied.value.tickers - Elems(ts)))
  }

  /** `_record_change`. */
  ghost function Recorded(c: Conn, piece: Change): Conn {
    var d := c.(applied := Carried(c.applied, piece));
    match piece
    case RemoveGroup(id) =>
      d.(subs := c.subs - SidsOf(c.subs, id), resyncing := c.resyncing - SidsOf(c.subs, id),
         books := Released(c.books, TickersOf(c.applied), TickersOf(c.desired)))
    case RemoveMarkets(_, ts) => d.(books := Released(c.books, Elems(ts), TickersOf(c.desired)))
    case _ => d
  }

  ghost function SentPiece(cfg: Config, c: Conn, piece: Change): Conn {
    var commands := CommandsOf(cfg, c.subs, piece);
    var awaited :=
        if piece.AddGroup? then c.pending[Key(c.nextId) := Pending(piece.group.id, cfg.groupChannels)] else c.pending;
    Recorded(c.(pending := awaited, nextId := c.nextId + |commands|, sent := c.sent + commands), piece)
  }

  predicate Blocked(pending: map<Key, Pending>, piece: Change) {
    (piece.AddMarkets? || piece.RemoveMarkets?) && Subscribing(pending, piece.id)
  }

  /** The loop of `_reconcile_locked`: stops, deferred, at a membership change of a group whose own
      subscribe still awaits a reply. */
  ghost function RunPieces(cfg: Config, c: Conn, pieces: seq<Change>): Conn
    decreases |pieces|
  {
    if pieces == [] then c
    else if Blocked(c.pending, pieces[0]) then c.(deferred := true)
    else RunPieces(cfg, SentPiece(cfg, c, pieces[0]), pieces[1..])
  }

  ghost function AskedFirehose(cfg: Config, c: Conn): Conn {
    if cfg.firehoseChannels == {} || c.firehoseAsked then c
    else c.(firehoseAsked := true, pending := c.pending[Key(c.nextId) := Pending(FIREHOSE, cfg.firehoseChannels)],
            nextId := c.nextId + 1, sent := c.sent + [Subscribe(cfg.firehoseChannels, [])])
  }

  ghost function Pieces(cfg: Config, c: Conn): seq<Change>
    requires cfg.Valid()
  {
    SplitAll(Diff(PlanOf(c.applied), PlanOf(c.desired)), cfg.maxMarkets)
  }

  ghost function Reconciled(cfg: Config, c: Conn): Conn
    requires cfg.Valid()
  {
    if c.pending != map[] then c.(deferred := true)
    else RunPieces(cfg, AskedFirehose(cfg, c), Pieces(cfg, c))
  }

  // ------------------------------------------------------------------ replies

  /** `_answer`. */
  ghost function Answered(c: Conn, id: Key, sid: Key, channel: Key): Conn
    requires id in c.pending
  {
    c.(subs := c.subs[sid := Info(channel, c.pending[id].group)], pending := StillPending(c.pending, id, channel))
  }

  ghost function StillPending(pending: map<Key, Pending>, id: Key, channel: Key): map<Key, Pending>
    requires id in pending
  {
    var left := pending[id].channels - {channel};
    if left == {} then pending - {id} else pending[id := pending[id].(channels := left)]
  }

  ghost function Resumed(cfg: Config, c: Conn): Conn
    requires cfg.Valid()
  {
    if c.deferred && c.pending == map[] then Reconciled(cfg, c.(deferred := false)) else c
  }

  /** What a reply leaves, and whether it goes on to resume a deferred reconciliation. */
  datatype Heard = Heard(conn: Conn, resumes: bool)

  ghost function After(cfg: Config, h: Heard): Conn
    requires cfg.Valid()
  {
    if h.resumes then Resumed(cfg, h.conn) else h.conn
  }

  /** `_on_subscribed`. */
  ghost function HearSubscribed(c: Conn, id: Option<Key>, sid: Key, channel: Key): Heard {
    var known := c.(channelOf := c.channelOf[sid := channel]);
    if id.None? || id.value !in c.pending then Heard(known, false)
    else Heard(Answered(known, id.value, sid, channel), true)
  }

  /** `_request_snapshot`: the markets not already awaiting one on this sid. */
  ghost function SnapshotAsked(c: Conn, sid: Key, tickers: set<Ticker>): Conn {
    var wanted := tickers - Awaited(c.resyncing, sid);
    c.(resyncing := c.resyncing[sid := Awaited(c.resyncing, sid) + wanted],
       nextId := if wanted == {} then c.nextId else c.nextId + 1, sent := c.sent + Request(sid, wanted))
  }

  ghost function Awaited(resyncing: map<Key, set<Ticker>>, sid: Key): set<Ticker> {
    if sid in resyncing then resyncing[sid] else {}
  }

  ghost function Request(sid: Key, wanted: set<Ticker>): seq<Command> {
    if wanted == {} then [] else [GetSnapshot(sid, Sorted(wanted))]
  }

  ghost function Merged(c: Conn, members: set<Ticker>): Conn {
    if c.applied.None? || members == c.applied.value.tickers then c
    else c.(applied := Some(c.applied.value.(tickers := members)), deferred := true)
  }

  /** The merged markets wanted here without a fresh book. */
  ghost function Unfresh(c: Conn, members: set<Ticker>): set<Ticker> {
    UnfreshOf(members, TickersOf(c.desired), c.books)
  }

  function UnfreshOf(members: set<Ticker>, wanted: set<Ticker>, books: Books): set<Ticker> {
    set t | t in members && t in wanted && !(t in books && !books[t].stale)
  }

  /** `_adopt_membership`: a merged subscription's members become the connection's. */
  ghost function Adopted(c: Conn, group: Key, sid: Key, channel: Key, members: set<Ticker>): Conn {
    if members == {} || c.applied.None? || c.applied.value.id != group then c
    else if channel != ORDERBOOK then Merged(c, members)
    else SnapshotAsked(Merged(c, members), sid, Unfresh(c, members))
  }

  /** `_on_ok`. */
  ghost function HearOk(c: Conn, id: Option<Key>, sid: Option<Key>, members: set<Ticker>): Heard {
    if id.None? || id.value !in c.pending then Heard(c, false)
    else if sid.None? || sid.value !in c.channelOf || c.channelOf[sid.value] !in c.pending[id.value].channels
        then Heard(c, false)
    else
      var channel, group := c.channelOf[sid.value], c.pending[id.value].group;
      Heard(Adopted(Answered(c, id.value, sid.value, channel), group, sid.value, channel, members), true)
  }

  predicate Refuses(c: Conn, id: Option<Key>) {
    id.Some? && id.value in c.pending && c.pending[id.value].group != FIREHOSE
  }

  ghost function Denied(c: Conn, id: Key): Conn
    requires id in c.pending
  {
    var group := c.pending[id].group;
    c.(pending := c.pending - {id}, firehoseAsked := c.firehoseAsked && group != FIREHOSE,
       applied := if group != FIREHOSE && SidsOf(c.subs, group) == {} then None else c.applied)
  }

  function WithoutSid(resyncing: map<Key, set<Ticker>>, sid: Option<Key>): map<Key, set<Ticker>> {
    if sid.None? then resyncing else resyncing - {sid.value}
  }

  /** `_on_error`. */
  ghost function HearError(c: Conn, id: Option<Key>, sid: Option<Key>): Heard {
    var d := c.(resyncing := WithoutSid(c.resyncing, sid));
    if id.None? || id.value !in c.pending then Heard(d, false) else Heard(Denied(d, id.value), true)
  }

  /** The locked half of `set_group`; the other half is the plain assignment of `desired`. */
  ghost function OnSetGroup(cfg: Config, c: Conn): Conn
    requires cfg.Valid()
  {
    var d := Reconciled(cfg, c);
    d.(books := Pruned(d.books, TickersOf(d.desired) + TickersOf(d.applied)))
  }

  // ------------------------------------------------------------------ what every step keeps

  function IdOf(g: Option<Group>): Option<Key> {
    if g.None? then None else Some(g.value.id)
  }

  /** An applied group always has a sid, or a subscribe that will bring one or end the connection. */
  ghost predicate Reachable(c: Conn) {
    HasWay(IdOf(c.applied), c.subs, c.pending)
  }

  ghost predicate HasWay(applied: Option<Key>, subs: map<Key, Info>, pending: map<Key, Pending>) {
    applied.Some? ==> SidsOf(subs, applied.value) != {} || Subscribing(pending, applied.value)
  }

  /** Every subscribe that awaits replies is the firehose's or the applied group's, one of each at most. */
  ghost predicate WellPended(cfg: Config, applied: Option<Key>, pending: map<Key, Pending>) {
    && (forall k ::
        k in pending ==> pending[k].channels != {} && pending[k].channels <= ChannelsOf(cfg, pending[k].group))
    && (forall k :: k in pending ==> pending[k].group == FIREHOSE || applied == Some(pending[k].group))
    && (forall j, k :: j in pending && k in pending && pending[j].group == pending[k].group ==> j == k)
  }

  ghost predicate Numbered(pending: map<Key, Pending>, nextId: int) {
    forall k :: k in pending ==> k.rank < nextId
  }

  /** Every sid still held is the firehose's or the applied group's, on the channel it was first given. */
  ghost predicate WellBound(cfg: Config, applied: Option<Key>, subs: map<Key, Info>, channelOf: map<Key, Key>) {
    forall s :: s in subs ==>
      && s in channelOf && channelOf[s] == subs[s].channel && subs[s].channel in ChannelsOf(cfg, subs[s].group)
      && (subs[s].group == FIREHOSE || applied == Some(subs[s].group))
  }

  function ChannelsOf(cfg: Config, group: Key): set<Key> {
    if group == FIREHOSE then cfg.firehoseChannels else cfg.groupChannels
  }

  ghost predicate Steady(cfg: Config, c: Conn) {
    && cfg.Valid() && ValidGroup(cfg, c.desired) && ValidGroup(cfg, c.applied)
    && WellPended(cfg, IdOf(c.applied), c.pending) && Numbered(c.pending, c.nextId)
    && WellBound(cfg, IdOf(c.applied), c.subs, c.channelOf) && Reachable(c)
  }

  /** A piece that can be sent: its sid lookup succeeds, its group awaits no subscribe, and it names
      few enough markets. */
  ghost predicate Sendable(cfg: Config, c: Conn, piece: Change) {
    && Size(piece) <= cfg.maxMarkets
    && (piece.AddGroup? ==> c.applied.None? && !Subscribing(c.pending, piece.group.id))
    && (!piece.AddGroup? ==> c.applied.Some? && c.applied.value.id == piece.id
                             && HasSid(c, piece.id) && !Subscribing(c.pending, piece.id))
  }

  /** Every piece the loop sends is sendable when it is sent. */
  ghost predicate AllSendable(cfg: Config, c: Conn, pieces: seq<Change>)
    decreases |pieces|
  {
    pieces == [] || Blocked(c.pending, pieces[0])
    || (Sendable(cfg, c, pieces[0]) && AllSendable(cfg, SentPiece(cfg, c, pieces[0]), pieces[1..]))
  }

  // ------------------------------------------------------------------ one reconciliation

  /** The plans `diff` passes through on one connection hold at most one group. */
  ghost predicate OneGroup(cfg: Config, p: Plan) {
    exists g: Option<Group> :: p == PlanOf(g) && ValidGroup(cfg, g)
  }

  lemma PlanOfInjective(a: Option<Group>, b: Option<Group>)
    requires PlanOf(a) == PlanOf(b)
    ensures a == b
  {
    if a.Some? { assert a.value.id in PlanOf(b); }
    if b.Some? { assert b.value.id in PlanOf(a); }
  }

  predicate IsRemoval(piece: Change) {
    piece.RemoveGroup? || piece.RemoveMarkets?
  }

  /** A piece keeps one group applied, and is about the group that is applied. */
  ghost predicate Fits(cfg: Config, applied: Option<Group>, piece: Change) {
    && ValidGroup(cfg, applied) && ValidGroup(cfg, Carried(applied, piece)) && Size(piece) <= cfg.maxMarkets
    && (if piece.AddGroup? then applied.None? else applied.Some? && applied.value.id == piece.id)
  }

  lemma OnlyTheAdded(before: Plan, added: Group, g: Option<Group>)
    requires before[added.id := added] == PlanOf(g)
    ensures forall h :: h in before ==> h == added.id
  {
    assert added.id in PlanOf(g);
    forall h | h in before ensures h == added.id {
      assert h in before[added.id := added];
      assert h in PlanOf(g);
    }
  }

  lemma NothingBefore(applied: Option<Group>, added: Group, g: Option<Group>)
    requires added.id !in PlanOf(applied) && PlanOf(applied)[added.id := added] == PlanOf(g)
    ensures applied.None?
  {
    assert applied.Some? ==> applied.value.id in PlanOf(applied);
    OnlyTheAdded(PlanOf(applied), added, g);
  }

  lemma CarriedIsApplied(cfg: Config, applied: Option<Group>, piece: Change)
    requires ValidGroup(cfg, applied) && Names(PlanOf(applied), piece) && OneGroup(cfg, Apply(PlanOf(applied), piece))
    requires Size(piece) <= cfg.maxMarkets
    ensures Fits(cfg, applied, piece) && PlanOf(Carried(applied, piece)) == Apply(PlanOf(applied), piece)
  {
    var after := Apply(PlanOf(applied), piece);
    var g: Option<Group> :| after == PlanOf(g) && ValidGroup(cfg, g);
    if piece.AddGroup? { NothingBefore(applied, piece.group, g); }
    assert after == PlanOf(Carried(applied, piece));
    PlanOfInjective(g, Carried(applied, piece));
  }

  /** The pieces fit one after the other, removals first. */
  ghost predicate OnTrack(cfg: Config, applied: Option<Group>, pieces: seq<Change>)
    decreases |pieces|
  {
    pieces == []
    || (&& Fits(cfg, applied, pieces[0])
        && (IsRemoval(pieces[0]) || forall i :: 0 <= i < |pieces| ==> !IsRemoval(pieces[i]))
        && OnTrack(cfg, Carried(applied, pieces[0]), pieces[1..]))
  }

  ghost function CarriedAll(applied: Option<Group>, pieces: seq<Change>): Option<Group>
    decreases |pieces|
  {
    if pieces == [] then applied else CarriedAll(Carried(applied, pieces[0]), pieces[1..])
  }

  /** The plan changes hold one group at every point and name only what is there. */
  ghost predicate Planned(cfg: Config, p: Plan, pieces: seq<Change>) {
    && Named(p, pieces)
    && (forall k :: 0 <= k <= |pieces| ==> OneGroup(cfg, ApplyAll(p, pieces[..k])))
    && (forall i :: 0 <= i < |pieces| ==> Size(pieces[i]) <= cfg.maxMarkets)
  }

  lemma PrefixOfRest(p: Plan, pieces: seq<Change>, k: nat)
    requires pieces != [] && k < |pieces|
    ensures ApplyAll(Apply(p, pieces[0]), pieces[1..][..k]) == ApplyAll(p, pieces[..k + 1])
  {
    assert pieces[..k + 1] == [pieces[0]] + pieces[1..][..k];
    ApplyOne(p, pieces[0]);
    ApplyAppend(p, [pieces[0]], pieces[1..][..k]);
  }

  lemma PlannedRest(cfg: Config, p: Plan, pieces: seq<Change>)
    requires pieces != [] && Planned(cfg, p, pieces)
    ensures Names(p, pieces[0]) && OneGroup(cfg, Apply(p, pieces[0])) && Size(pieces[0]) <= cfg.maxMarkets
    ensures Planned(cfg, Apply(p, pieces[0]), pieces[1..])
    ensures ApplyAll(Apply(p, pieces[0]), pieces[1..]) == ApplyAll(p, pieces)
  {
    var rest, q := pieces[1..], Apply(p, pieces[0]);
    assert pieces[..0] == [] && Names(ApplyAll(p, pieces[..0]), pieces[0]);
    assert rest[..0] == [] && rest[..|rest|] == rest && pieces[..|pieces|] == pieces;
    PrefixOfRest(p, pieces, 0);
    PrefixOfRest(p, pieces, |rest|);
    forall k | 0 <= k <= |rest|
      ensures OneGroup(cfg, ApplyAll(q, rest[..k]))
      ensures k < |rest| ==> Names(ApplyAll(q, rest[..k]), rest[k])
    {
      PrefixOfRest(p, pieces, k);
      assert k < |rest| ==> Names(ApplyAll(p, pieces[..k + 1]), pieces[k + 1]);
    }
  }

  predicate RemovalsFirst(pieces: seq<Change>) {
    forall i, j :: 0 <= i < j < |pieces| && IsRemoval(pieces[j]) ==> IsRemoval(pieces[i])
  }

  lemma {:induction false} PlannedIsOnTrack(cfg: Config, applied: Option<Group>, pieces: seq<Change>)
    requires ValidGroup(cfg, applied) && Planned(cfg, PlanOf(applied), pieces) && RemovalsFirst(pieces)
    ensures OnTrack(cfg, applied, pieces) && PlanOf(CarriedAll(applied, pieces)) == ApplyAll(PlanOf(applied), pieces)
    decreases |pieces|
  {
    if pieces == [] {
    } else {
      PlannedRest(cfg, PlanOf(applied), pieces);
      CarriedIsApplied(cfg, applied, pieces[0]);
      PlannedIsOnTrack(cfg, Carried(applied, pieces[0]), pieces[1..]);
    }
  }

  lemma OneGroupPlans(cfg: Config, p: Plan)
    requires ValidPlan(p) && (forall g :: g in p ==> p[g].conn == cfg.conn && g != FIREHOSE)
    requires p != map[] ==> cfg.groupChannels != {}
    ensures OneGroup(cfg, p)
  {
    if p == map[] {
      assert p == PlanOf(None);
    } else {
      var g :| g in p;
      assert forall h :: h in p ==> h == g;
      assert p == PlanOf(Some(p[g]));
    }
  }

  lemma WithinOneConnection(cfg: Config, p: Plan, g: Option<Group>)
    requires ValidGroup(cfg, g) && Within(p, PlanOf(g)) && ValidPlan(p)
    ensures OneGroup(cfg, p)
  {
    if p != map[] {
      var h :| h in p;
      assert h in PlanOf(g);
    }
    OneGroupPlans(cfg, p);
  }

  lemma PrefixHoldsOneGroup(cfg: Config, applied: Option<Group>, desired: Option<Group>, k: nat)
    requires cfg.Valid() && ValidGroup(cfg, applied) && ValidGroup(cfg, desired)
    requires k <= |SplitAll(Diff(PlanOf(applied), PlanOf(desired)), cfg.maxMarkets)|
    ensures OneGroup(cfg,
            ApplyAll(PlanOf(applied), SplitAll(Diff(PlanOf(applied), PlanOf(desired)), cfg.maxMarkets)[..k]))
  {
    var p, q, n := PlanOf(applied), PlanOf(desired), cfg.maxMarkets;
    PiecesAreSafe(p, q, n, 0, k);
    PiecesStayWithin(p, q, n, k);
    var at := ApplyAll(p, SplitAll(Diff(p, q), n)[..k]);
    if Within(at, p) { WithinOneConnection(cfg, at, applied); } else { WithinOneConnection(cfg, at, desired); }
  }

  lemma PiecesArePlanned(cfg: Config, applied: Option<Group>, desired: Option<Group>)
    requires cfg.Valid() && ValidGroup(cfg, applied) && ValidGroup(cfg, desired)
    ensures Planned(cfg, PlanOf(applied), SplitAll(Diff(PlanOf(applied), PlanOf(desired)), cfg.maxMarkets))
  {
    var p, q, n := PlanOf(applied), PlanOf(desired), cfg.maxMarkets;
    PiecesAreSafe(p, q, n, 0, 0);
    AllPiecesAreSmall(Diff(p, q), n);
    forall k | 0 <= k <= |SplitAll(Diff(p, q), n)| ensures OneGroup(cfg, ApplyAll(p, SplitAll(Diff(p, q), n)[..k])) {
      PrefixHoldsOneGroup(cfg, applied, desired, k);
    }
  }

  lemma PiecesRemoveFirst(p: Plan, q: Plan, n: nat)
    requires n >= 1
    ensures RemovalsFirst(SplitAll(Diff(p, q), n))
  {
    PiecesInOrder(p, q, n);
    InOrder(SplitAll(Removals(p, q), n), SplitAll(Additions(p, q), n));
  }

  lemma InOrder(r: seq<Change>, a: seq<Change>)
    requires AllRemovals(r) && AllAdditions(a)
    ensures RemovalsFirst(r + a)
  {
  }

  lemma PlannedLeads(cfg: Config, applied: Option<Group>, pieces: seq<Change>, desired: Option<Group>)
    requires ValidGroup(cfg, applied) && Planned(cfg, PlanOf(applied), pieces) && RemovalsFirst(pieces)
    requires ApplyAll(PlanOf(applied), pieces) == PlanOf(desired)
    ensures OnTrack(cfg, applied, pieces) && CarriedAll(applied, pieces) == desired
  {
    PlannedIsOnTrack(cfg, applied, pieces);
    PlanOfInjective(CarriedAll(applied, pieces), desired);
  }

  /** What `diff` and `split_change` ask of one connection can be carried out piece by piece and ends at
      the desired group. */
  lemma PiecesLeadToDesired(cfg: Config, applied: Option<Group>, desired: Option<Group>)
    requires cfg.Valid() && ValidGroup(cfg, applied) && ValidGroup(cfg, desired)
    ensures OnTrack(cfg, applied, SplitAll(Diff(PlanOf(applied), PlanOf(desired)), cfg.maxMarkets))
    ensures CarriedAll(applied, SplitAll(Diff(PlanOf(applied), PlanOf(desired)), cfg.maxMarkets)) == desired
  {
    var p, q, n := PlanOf(applied), PlanOf(desired), cfg.maxMarkets;
    PiecesArePlanned(cfg, applied, desired);
    PiecesRemoveFirst(p, q, n);
    PiecesAreSafe(p, q, n, 0, 0);
    PlannedLeads(cfg, applied, SplitAll(Diff(p, q), n), desired);
  }

  // ------------------------------------------------------------------ the loop

  /** No group subscribe awaits a reply. */
  ghost predicate GroupIdle(c: Conn) {
    forall k :: k in c.pending ==> c.pending[k].group == FIREHOSE
  }

  lemma RemovalStep(cfg: Config, c: Conn, piece: Change)
    requires Steady(cfg, c) && GroupIdle(c) && IsRemoval(piece) && Fits(cfg, c.applied, piece)
    ensures Sendable(cfg, c, piece) && !Blocked(c.pending, piece)
    ensures Steady(cfg, SentPiece(cfg, c, piece)) && GroupIdle(SentPiece(cfg, c, piece))
  {
    assert !Subscribing(c.pending, piece.id);
  }

  lemma AdditionStep(cfg: Config, c: Conn, piece: Change)
    requires Steady(cfg, c) && !IsRemoval(piece) && Fits(cfg, c.applied, piece) && !Blocked(c.pending, piece)
    ensures Sendable(cfg, c, piece) && Steady(cfg, SentPiece(cfg, c, piece))
  {
    if piece.AddGroup? {
      var d := SentPiece(cfg, c, piece);
      assert Key(c.nextId) in d.pending && d.pending[Key(c.nextId)].group == piece.group.id;
    }
  }

  lemma TrackRest(cfg: Config, applied: Option<Group>, pieces: seq<Change>)
    requires pieces != [] && OnTrack(cfg, applied, pieces)
    ensures Fits(cfg, applied, pieces[0]) && OnTrack(cfg, Carried(applied, pieces[0]), pieces[1..])
    ensures pieces[1..] != [] && IsRemoval(pieces[1..][0]) ==> IsRemoval(pieces[0])
  {
    if pieces[1..] != [] { assert pieces[1..][0] == pieces[1]; }
  }

  lemma PieceStep(cfg: Config, c: Conn, pieces: seq<Change>)
    requires Steady(cfg, c) && pieces != [] && OnTrack(cfg, c.applied, pieces) && !Blocked(c.pending, pieces[0])
    requires IsRemoval(pieces[0]) ==> GroupIdle(c)
    ensures Sendable(cfg, c, pieces[0]) && Steady(cfg, SentPiece(cfg, c, pieces[0]))
    ensures OnTrack(cfg, SentPiece(cfg, c, pieces[0]).applied, pieces[1..])
    ensures pieces[1..] != [] && IsRemoval(pieces[1..][0]) ==> GroupIdle(SentPiece(cfg, c, pieces[0]))
  {
    TrackRest(cfg, c.applied, pieces);
    SentPieceFacts(cfg, c, pieces[0]);
    if IsRemoval(pieces[0]) { RemovalStep(cfg, c, pieces[0]); } else { AdditionStep(cfg, c, pieces[0]); }
  }

  /** Every piece of a plan change is sendable when its turn comes. */
  lemma {:induction false} PiecesAreSendable(cfg: Config, c: Conn, pieces: seq<Change>)
    requires Steady(cfg, c) && OnTrack(cfg, c.applied, pieces)
    requires pieces != [] && IsRemoval(pieces[0]) ==> GroupIdle(c)
    ensures AllSendable(cfg, c, pieces) && Steady(cfg, RunPieces(cfg, c, pieces))
    decreases |pieces|
  {
    if pieces == [] {
    } else if Blocked(c.pending, pieces[0]) {
      DeferredIsSteady(cfg, c);
    } else {
      PieceStep(cfg, c, pieces);
      PiecesAreSendable(cfg, SentPiece(cfg, c, pieces[0]), pieces[1..]);
    }
  }

  lemma DeferredIsSteady(cfg: Config, c: Conn)
    requires Steady(cfg, c)
    ensures Steady(cfg, c.(deferred := true)) && Steady(cfg, c.(deferred := false))
  {
  }

  lemma BlockedIsPending(pending: map<Key, Pending>, piece: Change)
    requires Blocked(pending, piece)
    ensures pending != map[]
  {
    var k :| k in pending && pending[k].group == piece.id;
  }

  lemma SentPieceFacts(cfg: Config, c: Conn, piece: Change)
    ensures var d := SentPiece(cfg, c, piece);
            d.applied == Carried(c.applied, piece) && d.desired == c.desired && d.deferred == c.deferred
  {
  }

  /** The loop either applies every piece or stops with a subscribe unanswered. */
  lemma {:induction false} PiecesEnd(cfg: Config, c: Conn, pieces: seq<Change>)
    ensures var d := RunPieces(cfg, c, pieces);
            && d.desired == c.desired && (d.deferred ==> c.deferred || d.pending != map[])
            && (!d.deferred ==> d.applied == CarriedAll(c.applied, pieces))
    decreases |pieces|
  {
    if pieces == [] {
    } else if Blocked(c.pending, pieces[0]) {
      BlockedIsPending(c.pending, pieces[0]);
    } else {
      SentPieceFacts(cfg, c, pieces[0]);
      PiecesEnd(cfg, SentPiece(cfg, c, pieces[0]), pieces[1..]);
    }
  }

  lemma AskedIsSteady(cfg: Config, c: Conn)
    requires Steady(cfg, c) && c.pending == map[]
    ensures Steady(cfg, AskedFirehose(cfg, c)) && GroupIdle(AskedFirehose(cfg, c))
  {
    var d := AskedFirehose(cfg, c);
    assert c.applied.Some? ==> HasSid(c, c.applied.value.id);
    assert forall k :: k in d.pending ==> k == Key(c.nextId) && d.pending[k] == Pending(FIREHOSE, cfg.firehoseChannels);
    assert WellPended(cfg, IdOf(d.applied), d.pending);
  }

  /** A reconciliation on a connection with nothing pending sends only what can be sent, and either
      reaches the desired group or is left waiting for a reply. */
  lemma ReconcileIsSendable(cfg: Config, c: Conn)
    requires Steady(cfg, c) && c.pending == map[]
    ensures AllSendable(cfg, AskedFirehose(cfg, c), Pieces(cfg, c)) && Steady(cfg, Reconciled(cfg, c))
  {
    PiecesLeadToDesired(cfg, c.applied, c.desired);
    AskedIsSteady(cfg, c);
    PiecesAreSendable(cfg, AskedFirehose(cfg, c), Pieces(cfg, c));
  }

  lemma ReconcileRuns(cfg: Config, c: Conn)
    requires Steady(cfg, c) && !c.deferred && c.pending == map[]
    ensures var d := Reconciled(cfg, c);
            Steady(cfg, d) && d.desired == c.desired
            && (if d.deferred then d.pending != map[] else d.applied == d.desired)
  {
    ReconcileIsSendable(cfg, c);
    ReconcileEnds(cfg, c);
  }

  lemma ReconcileEnds(cfg: Config, c: Conn)
    requires cfg.Valid() && ValidGroup(cfg, c.applied) && ValidGroup(cfg, c.desired) && !c.deferred
             && c.pending == map[]
    ensures var d := Reconciled(cfg, c);
            d.desired == c.desired && (if d.deferred then d.pending != map[] else d.applied == d.desired)
  {
    PiecesLeadToDesired(cfg, c.applied, c.desired);
    PiecesEnd(cfg, AskedFirehose(cfg, c), Pieces(cfg, c));
  }

  lemma ReconcileKeeps(cfg: Config, c: Conn)
    requires Steady(cfg, c) && (c.deferred ==> c.pending != map[])
    ensures var d := Reconciled(cfg, c);
            Steady(cfg, d) && d.desired == c.desired
            && (if d.deferred then d.pending != map[] else d.applied == d.desired)
  {
    if c.pending == map[] { ReconcileRuns(cfg, c); } else { DeferredIsSteady(cfg, c); }
  }

  lemma ResumeKeeps(cfg: Config, c: Conn)
    requires Steady(cfg, c)
    ensures var d := Resumed(cfg, c);
            && Steady(cfg, d) && d.desired == c.desired
            && (d.deferred ==> d.pending != map[])
            && (!d.deferred ==> d.applied == d.desired || (!c.deferred && d == c))
  {
    if c.deferred && c.pending == map[] {
      DeferredIsSteady(cfg, c);
      ReconcileRuns(cfg, c.(deferred := false));
    }
  }

  // ------------------------------------------------------------------ replies

  /** What the exchange promises of a reply: it names a channel of its command, and a sid names one
      channel for the life of the connection. */
  ghost predicate Honest(c: Conn, id: Key, sid: Key, channel: Key) {
    && (id in c.pending ==> channel in c.pending[id].channels)
    && (sid in c.channelOf ==> c.channelOf[sid] == channel)
  }

  ghost function Bound(c: Conn, id: Key, sid: Key, channel: Key): Conn
    requires id in c.pending
  {
    Answered(c.(channelOf := c.channelOf[sid := channel]), id, sid, channel)
  }

  lemma AnswerKeepsPending(cfg: Config, applied: Option<Key>, pending: map<Key, Pending>, id: Key, channel: Key)
    requires WellPended(cfg, applied, pending) && id in pending
    ensures WellPended(cfg, applied, StillPending(pending, id, channel))
  {
  }

  lemma SameChannelSameGroup(cfg: Config, c: Conn, id: Key, sid: Key, channel: Key)
    requires Steady(cfg, c) && id in c.pending && Honest(c, id, sid, channel)
    ensures sid in c.subs ==> c.subs[sid].group == c.pending[id].group
  {
    if sid in c.subs {
      assert channel in ChannelsOf(cfg, c.subs[sid].group) && channel in ChannelsOf(cfg, c.pending[id].group);
    }
  }

  lemma AnswerKeeps(cfg: Config, c: Conn, id: Key, sid: Key, channel: Key)
    requires Steady(cfg, c) && id in c.pending && Honest(c, id, sid, channel)
    ensures Steady(cfg, Bound(c, id, sid, channel))
  {
    AnswerKeepsPending(cfg, IdOf(c.applied), c.pending, id, channel);
    SameChannelSameGroup(cfg, c, id, sid, channel);
    AnswerKeepsReachable(c, id, sid, channel);
    assert IdOf(Bound(c, id, sid, channel).applied) == IdOf(c.applied);
    if c.applied.Some? && SidsOf(c.subs, c.applied.value.id) == {sid} {
      assert sid in SidsOf(c.subs, c.applied.value.id);
    }
  }

  /** Without that promise a reply can take a group's last sid away: exactly when it moves the only sid of
      an applied group that awaits nothing to another group. */
  lemma AnswerKeepsReachable(c: Conn, id: Key, sid: Key, channel: Key)
    requires Reachable(c) && id in c.pending
    ensures Reachable(Answered(c, id, sid, channel)) <==>
            !(c.applied.Some? && c.pending[id].group != c.applied.value.id
                && SidsOf(c.subs, c.applied.value.id) == {sid}
              && !Subscribing(c.pending, c.applied.value.id))
  {
    var d := Answered(c, id, sid, channel);
    if c.applied.Some? {
      var g := c.applied.value.id;
      if c.pending[id].group == g {
        assert sid in SidsOf(d.subs, g);
      } else {
        assert SidsOf(d.subs, g) == SidsOf(c.subs, g) - {sid};
        assert forall k :: k in c.pending && c.pending[k].group == g ==> k in d.pending && d.pending[k] == c.pending[k];
        assert forall k :: k in d.pending && d.pending[k].group == g ==> k in c.pending && c.pending[k].group == g;
      }
    }
  }

  lemma HearSubscribedKeeps(cfg: Config, c: Conn, id: Option<Key>, sid: Key, channel: Key)
    requires Steady(cfg, c) && (id.Some? ==> Honest(c, id.value, sid, channel))
             && (sid in c.channelOf ==> c.channelOf[sid] == channel)
    ensures Steady(cfg, HearSubscribed(c, id, sid, channel).conn)
  {
    if id.Some? && id.value in c.pending {
      AnswerKeeps(cfg, c, id.value, sid, channel);
    } else {
      NewChannelKeeps(cfg, c, sid, channel);
    }
  }

  lemma NewChannelKeeps(cfg: Config, c: Conn, sid: Key, channel: Key)
    requires Steady(cfg, c) && (sid in c.channelOf ==> c.channelOf[sid] == channel)
    ensures Steady(cfg, c.(channelOf := c.channelOf[sid := channel]))
  {
    var d := c.(channelOf := c.channelOf[sid := channel]);
    assert WellBound(cfg, IdOf(d.applied), d.subs, d.channelOf);
  }

  lemma SnapshotAskedKeeps(c: Conn, sid: Key, tickers: set<Ticker>)
    ensures SameControl(c, SnapshotAsked(c, sid, tickers))
  {
  }

  lemma MergedKeeps(cfg: Config, c: Conn, members: set<Ticker>)
    requires Steady(cfg, c) && members != {}
    ensures var d := Merged(c, members);
            Steady(cfg, d) && d.desired == c.desired && (d.deferred || (!c.deferred && d.applied == c.applied))
  {
    var d := Merged(c, members);
    if d != c {
      assert IdOf(d.applied) == IdOf(c.applied) && d.pending == c.pending && d.subs == c.subs;
      assert ValidGroup(cfg, d.applied);
    }
  }

  lemma AdoptedKeeps(cfg: Config, c: Conn, group: Key, sid: Key, channel: Key, members: set<Ticker>)
    requires Steady(cfg, c)
    ensures var d := Adopted(c, group, sid, channel, members);
            Steady(cfg, d) && d.desired == c.desired && (d.deferred || (!c.deferred && d.applied == c.applied))
  {
    if members != {} {
      MergedKeeps(cfg, c, members);
      SnapshotAskedKeeps(Merged(c, members), sid, Unfresh(c, members));
      SameControlKeeps(cfg, Merged(c, members), SnapshotAsked(Merged(c, members), sid, Unfresh(c, members)));
    }
  }

  /** The steps of the protocol see no difference. */
  ghost predicate SameControl(c: Conn, d: Conn) {
    && d.desired == c.desired && d.applied == c.applied && d.subs == c.subs && d.channelOf == c.channelOf
    && d.pending == c.pending && d.deferred == c.deferred && d.firehoseAsked == c.firehoseAsked && d.nextId >= c.nextId
  }

  lemma SameControlKeeps(cfg: Config, c: Conn, d: Conn)
    requires Steady(cfg, c) && SameControl(c, d)
    ensures Steady(cfg, d)
  {
  }

  lemma HearOkKeeps(cfg: Config, c: Conn, id: Option<Key>, sid: Option<Key>, members: set<Ticker>)
    requires Steady(cfg, c)
    ensures var h := HearOk(c, id, sid, members);
            && Steady(cfg, h.conn) && h.conn.desired == c.desired
            && (h.conn.deferred || (!c.deferred && h.conn.applied == c.applied))
            && (!h.resumes ==> h.conn == c)
  {
    if HearOk(c, id, sid, members).resumes {
      var channel, group := c.channelOf[sid.value], c.pending[id.value].group;
      AnswerKeeps(cfg, c, id.value, sid.value, channel);
      assert c.channelOf[sid.value := channel] == c.channelOf;
      assert Bound(c, id.value, sid.value, channel) == Answered(c, id.value, sid.value, channel);
      AdoptedKeeps(cfg, Answered(c, id.value, sid.value, channel), group, sid.value, channel, members);
    }
  }

  lemma RefusedKeepsPending(cfg: Config, applied: Option<Key>, pending: map<Key, Pending>, id: Key)
    requires WellPended(cfg, applied, pending) && id in pending
    ensures WellPended(cfg, applied, pending - {id})
    ensures pending[id].group != FIREHOSE ==> WellPended(cfg, None, pending - {id})
    ensures !Subscribing(pending - {id}, pending[id].group)
    ensures forall g :: g != pending[id].group && Subscribing(pending, g) ==> Subscribing(pending - {id}, g)
  {
    forall g | g != pending[id].group && Subscribing(pending, g) ensures Subscribing(pending - {id}, g) {
      var k :| k in pending && pending[k].group == g;
      assert k in pending - {id};
    }
  }

  lemma UnboundGroup(cfg: Config, applied: Option<Key>, subs: map<Key, Info>, channelOf: map<Key, Key>, group: Key)
    requires WellBound(cfg, applied, subs, channelOf) && applied == Some(group) && SidsOf(subs, group) == {}
    ensures WellBound(cfg, None, subs, channelOf)
  {
    assert forall s :: s in subs && subs[s].group == group ==> s in SidsOf(subs, group);
  }

  lemma DeniedKeeps(cfg: Config, c: Conn, id: Key)
    requires Steady(cfg, c) && id in c.pending
    ensures Steady(cfg, Denied(c, id))
  {
    RefusedKeepsPending(cfg, IdOf(c.applied), c.pending, id);
    if c.pending[id].group != FIREHOSE && SidsOf(c.subs, c.pending[id].group) == {} {
      UnboundGroup(cfg, IdOf(c.applied), c.subs, c.channelOf, c.pending[id].group);
    }
  }

  lemma HearErrorKeeps(cfg: Config, c: Conn, id: Option<Key>, sid: Option<Key>)
    requires Steady(cfg, c)
    ensures var h := HearError(c, id, sid);
            && Steady(cfg, h.conn) && h.conn.desired == c.desired && h.conn.deferred == c.deferred
            && (h.conn.applied == c.applied || (Refuses(c, id) && h.conn.applied == None))
            && (!h.resumes ==> SameControl(c, h.conn))
  {
    var d := c.(resyncing := WithoutSid(c.resyncing, sid));
    SameControlKeeps(cfg, c, d);
    if id.Some? && id.value in c.pending { DeniedKeeps(cfg, d, id.value); }
  }
}
