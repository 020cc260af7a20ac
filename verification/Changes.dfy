/** Which changes `diff` makes, and what they leave alone: `src/tape/recorder/planner.py`. */
module Changes {
  import opened Prelude
  import opened Planner

  /** A group kept by id that cannot be updated in place: it moves to another connection, or no market of it stays. */
  ghost predicate MustMove(running: Group, wanted: Group) {
    running.conn != wanted.conn || forall t :: t in running.tickers ==> t !in wanted.tickers
  }

  /** The tickers that are in the first set only, in order; there is at least one. */
  ghost predicate Exactly(ts: seq<Ticker>, has: set<Ticker>, lacks: set<Ticker>) {
    ts != [] && Ascending(ts) && forall t: Ticker :: t in ts <==> t in has && t !in lacks
  }

  /** The changes that are called for. */
  ghost predicate CalledFor(current: Plan, desired: Plan, c: Change) {
    match c
    case RemoveGroup(id) => id in current && (id in desired ==> MustMove(current[id], desired[id]))
    case AddGroup(g) =>
      g.id in desired && g == desired[g.id] && (g.id in current ==> MustMove(current[g.id], desired[g.id]))
    case RemoveMarkets(id, ts) =>
      id in current && id in desired && !MustMove(current[id], desired[id])
      && Exactly(ts, current[id].tickers, desired[id].tickers)
    case AddMarkets(id, ts) =>
      id in current && id in desired && !MustMove(current[id], desired[id])
      && Exactly(ts, desired[id].tickers, current[id].tickers)
  }

  function PhaseOf(c: Change): nat {
    match c
    case RemoveMarkets(_, _) => 0
    case RemoveGroup(_) => 1
    case AddGroup(_) => 2
    case AddMarkets(_, _) => 3
  }

  function GroupOf(c: Change): Key {
    match c
    case RemoveMarkets(id, _) => id
    case RemoveGroup(id) => id
    case AddGroup(g) => g.id
    case AddMarkets(id, _) => id
  }

  ghost predicate Earlier(a: Change, b: Change) {
    PhaseOf(a) < PhaseOf(b) || (PhaseOf(a) == PhaseOf(b) && GroupOf(a).rank < GroupOf(b).rank)
  }

  /** Markets leave, then groups leave, then groups come, then markets come, each by group id. */
  ghost predicate InPhases(cs: seq<Change>) {
    forall i, j :: 0 <= i < j < |cs| ==> Earlier(cs[i], cs[j])
  }

  /** One phase of the changes called for, over some of the groups. */
  ghost predicate PhaseIs(cs: seq<Change>, current: Plan, desired: Plan, phase: nat, ids: seq<Key>) {
    && InPhases(cs)
    && forall c :: c in cs <==> PhaseOf(c) == phase && GroupOf(c) in ids && CalledFor(current, desired, c)
  }

  lemma MovesAlike(running: Group, wanted: Group)
    ensures MustRebuild(running, wanted) <==> MustMove(running, wanted)
  {
  }

  /** A phase grows by the one change the next group calls for, if it calls for one. */
  lemma PhaseGrows(cs: seq<Change>, more: seq<Change>, current: Plan, desired: Plan, phase: nat, ids: seq<Key>, id: Key)
    requires PhaseIs(cs, current, desired, phase, ids) && |more| <= 1
             && forall i :: 0 <= i < |ids| ==> ids[i].rank < id.rank
    requires forall c :: c in more <==> PhaseOf(c) == phase && GroupOf(c) == id && CalledFor(current, desired, c)
    ensures PhaseIs(cs + more, current, desired, phase, ids + [id])
  {
    assert forall c :: c in cs + more <==> c in cs || c in more;
    assert forall k :: k in ids + [id] <==> k in ids || k == id;
    forall i, j | 0 <= i < j < |cs + more| ensures Earlier((cs + more)[i], (cs + more)[j]) {
      assert (cs + more)[i] in cs;
      if j >= |cs| { assert (cs + more)[j] in more; }
    }
  }

  /** At most one ascending list has given members. */
  lemma ListIsSorted(ts: seq<Ticker>, has: set<Ticker>, lacks: set<Ticker>)
    ensures Exactly(ts, has, lacks) <==> has - lacks != {} && ts == Sorted(has - lacks)
  {
    var only := has - lacks;
    if Exactly(ts, has, lacks) {
      assert ts[0] in only;
      assert Elems(ts) == only;
      AscendingCount(ts);
      SortingIsUnique(ts, Sorted(only), only);
    }
    if only != {} {
      var t :| t in only;
      assert t in Sorted(only);
    }
  }

  lemma AscendingCount(ts: seq<Ticker>)
    requires Ascending(ts)
    ensures |ts| == |Elems(ts)|
  {
    DistinctCount(ts);
  }

  lemma LessFor(current: Plan, desired: Plan, id: Key, c: Change)
    requires id in current
    ensures PhaseOf(c) == 0 && GroupOf(c) == id && CalledFor(current, desired, c) <==>
              Kept(current, desired, id) && current[id].tickers - desired[id].tickers != {}
              && c == RemoveMarkets(id, Sorted(current[id].tickers - desired[id].tickers))
  {
    if id in desired {
      MovesAlike(current[id], desired[id]);
      if c.RemoveMarkets? { ListIsSorted(c.tickers, current[id].tickers, desired[id].tickers); }
    }
  }

  lemma MoreFor(current: Plan, desired: Plan, id: Key, c: Change)
    requires id in current
    ensures PhaseOf(c) == 3 && GroupOf(c) == id && CalledFor(current, desired, c) <==>
              Kept(current, desired, id) && desired[id].tickers - current[id].tickers != {}
              && c == AddMarkets(id, Sorted(desired[id].tickers - current[id].tickers))
  {
    if id in desired {
      MovesAlike(current[id], desired[id]);
      if c.AddMarkets? { ListIsSorted(c.tickers, desired[id].tickers, current[id].tickers); }
    }
  }

  lemma DroppedFor(current: Plan, desired: Plan, id: Key, c: Change)
    requires id in current
    ensures PhaseOf(c) == 1 && GroupOf(c) == id && CalledFor(current, desired, c) <==>
              !Kept(current, desired, id) && c == RemoveGroup(id)
  {
    if id in desired { MovesAlike(current[id], desired[id]); }
  }

  lemma AddedFor(current: Plan, desired: Plan, id: Key, c: Change)
    requires ValidPlan(desired) && id in desired
    ensures PhaseOf(c) == 2 && GroupOf(c) == id && CalledFor(current, desired, c) <==>
              !Kept(current, desired, id) && c == AddGroup(desired[id])
  {
    if id in current { MovesAlike(current[id], desired[id]); }
  }

  lemma AscendingInit(ids: seq<Key>)
    requires Ascending(ids) && ids != []
    ensures var init, id := ids[..|ids| - 1], ids[|ids| - 1];
            ids == init + [id] && Ascending(init) && forall i :: 0 <= i < |init| ==> init[i].rank < id.rank
  {
  }

  lemma {:induction false} DropMarketsAre(ids: seq<Key>, current: Plan, desired: Plan)
    requires Ascending(ids) && forall id :: id in ids ==> id in current
    ensures PhaseIs(DropMarkets(ids, current, desired), current, desired, 0, ids)
  {
    if ids != [] {
      AscendingInit(ids);
      var init, id := ids[..|ids| - 1], ids[|ids| - 1];
      DropMarketsAre(init, current, desired);
      var more := if Kept(current, desired, id) && current[id].tickers - desired[id].tickers != {}
          then [RemoveMarkets(id, Sorted(current[id].tickers - desired[id].tickers))] else [];
      forall c ensures c in more <==> PhaseOf(c) == 0 && GroupOf(c) == id && CalledFor(current, desired, c) {
        LessFor(current, desired, id, c);
      }
      PhaseGrows(DropMarkets(init, current, desired), more, current, desired, 0, init, id);
    }
  }

  lemma {:induction false} DropGroupsAre(ids: seq<Key>, current: Plan, desired: Plan)
    requires Ascending(ids) && forall id :: id in ids ==> id in current
    ensures PhaseIs(DropGroups(ids, current, desired), current, desired, 1, ids)
  {
    if ids != [] {
      AscendingInit(ids);
      var init, id := ids[..|ids| - 1], ids[|ids| - 1];
      DropGroupsAre(init, current, desired);
      var more := if Kept(current, desired, id) then [] else [RemoveGroup(id)];
      forall c ensures c in more <==> PhaseOf(c) == 1 && GroupOf(c) == id && CalledFor(current, desired, c) {
        DroppedFor(current, desired, id, c);
      }
      PhaseGrows(DropGroups(init, current, desired), more, current, desired, 1, init, id);
    }
  }

  lemma {:induction false} AddGroupsAre(ids: seq<Key>, current: Plan, desired: Plan)
    requires ValidPlan(desired) && Ascending(ids) && forall id :: id in ids ==> id in desired
    ensures PhaseIs(AddGroups(ids, current, desired), current, desired, 2, ids)
  {
    if ids != [] {
      AscendingInit(ids);
      var init, id := ids[..|ids| - 1], ids[|ids| - 1];
      AddGroupsAre(init, current, desired);
      var more := if id in desired && !Kept(current, desired, id) then [AddGroup(desired[id])] else [];
      forall c ensures c in more <==> PhaseOf(c) == 2 && GroupOf(c) == id && CalledFor(current, desired, c) {
        AddedFor(current, desired, id, c);
      }
      PhaseGrows(AddGroups(init, current, desired), more, current, desired, 2, init, id);
    }
  }

  lemma {:induction false} GrowGroupsAre(ids: seq<Key>, current: Plan, desired: Plan)
    requires Ascending(ids) && forall id :: id in ids ==> id in current
    ensures PhaseIs(GrowGroups(ids, current, desired), current, desired, 3, ids)
  {
    if ids != [] {
      AscendingInit(ids);
      var init, id := ids[..|ids| - 1], ids[|ids| - 1];
      GrowGroupsAre(init, current, desired);
      var more := if Kept(current, desired, id) && desired[id].tickers - current[id].tickers != {}
          then [AddMarkets(id, Sorted(desired[id].tickers - current[id].tickers))] else [];
      forall c ensures c in more <==> PhaseOf(c) == 3 && GroupOf(c) == id && CalledFor(current, desired, c) {
        MoreFor(current, desired, id, c);
      }
      PhaseGrows(GrowGroups(init, current, desired), more, current, desired, 3, init, id);
    }
  }

  lemma PhasesJoin(a: seq<Change>, b: seq<Change>)
    requires InPhases(a) && InPhases(b)
    requires forall c, d :: c in a && d in b ==> PhaseOf(c) < PhaseOf(d)
    ensures InPhases(a + b)
  {
    forall i, j | 0 <= i < j < |a + b| ensures Earlier((a + b)[i], (a + b)[j]) {
      if i < |a| <= j { assert (a + b)[i] in a && (a + b)[j] in b; }
    }
  }

  ghost predicate InPhase(current: Plan, desired: Plan, phase: nat, c: Change) {
    PhaseOf(c) == phase && CalledFor(current, desired, c)
  }

  lemma PhaseIsWhole(cs: seq<Change>, current: Plan, desired: Plan, phase: nat, ids: set<Key>)
    requires PhaseIs(cs, current, desired, phase, Sorted(ids))
    requires ids == if phase == 2 then desired.Keys else current.Keys
    ensures forall c :: c in cs <==> InPhase(current, desired, phase, c)
  {
  }

  /** `diff` makes every change that is called for, each once and in its phase, and no other. */
  lemma DiffIsWhatIsCalledFor(current: Plan, desired: Plan)
    requires ValidPlan(desired)
    ensures forall c :: c in Diff(current, desired) <==> CalledFor(current, desired, c)
    ensures InPhases(Diff(current, desired))
  {
    var running, wanted := Sorted(current.Keys), Sorted(desired.Keys);
    var less, gone := DropMarkets(running, current, desired), DropGroups(running, current, desired);
    var come, more := AddGroups(wanted, current, desired), GrowGroups(running, current, desired);
    DropMarketsAre(running, current, desired);
    DropGroupsAre(running, current, desired);
    AddGroupsAre(wanted, current, desired);
    GrowGroupsAre(running, current, desired);
    PhaseIsWhole(less, current, desired, 0, current.Keys);
    PhaseIsWhole(gone, current, desired, 1, current.Keys);
    PhaseIsWhole(come, current, desired, 2, desired.Keys);
    PhaseIsWhole(more, current, desired, 3, current.Keys);
    FourPhases(less, gone, come, more, current, desired);
  }

  lemma FourPhases(less: seq<Change>, gone: seq<Change>, come: seq<Change>, more: seq<Change>, current: Plan,
                   desired: Plan)
    requires InPhases(less) && InPhases(gone) && InPhases(come) && InPhases(more)
    requires forall c :: c in less <==> InPhase(current, desired, 0, c)
    requires forall c :: c in gone <==> InPhase(current, desired, 1, c)
    requires forall c :: c in come <==> InPhase(current, desired, 2, c)
    requires forall c :: c in more <==> InPhase(current, desired, 3, c)
    ensures forall c :: c in (less + gone) + (come + more) <==> CalledFor(current, desired, c)
    ensures InPhases((less + gone) + (come + more))
  {
    PhasesJoin(less, gone);
    PhasesJoin(come, more);
    assert forall c :: c in less + gone <==> c in less || c in gone;
    assert forall c :: c in come + more <==> c in come || c in more;
    PhasesJoin(less + gone, come + more);
    forall c ensures c in (less + gone) + (come + more) <==> CalledFor(current, desired, c) {
      assert PhaseOf(c) <= 3;
      assert c in (less + gone) + (come + more) <==> c in less + gone || c in come + more;
      assert InPhase(current, desired, PhaseOf(c), c) <==> CalledFor(current, desired, c);
    }
  }

  // ------------------------------------------------------------------ what stays subscribed

  /** The change leaves this market of this group where it is. */
  ghost predicate Spares(c: Change, id: Key, t: Ticker) {
    match c
    case RemoveGroup(g) => g != id
    case AddGroup(g) => g.id != id
    case RemoveMarkets(g, ts) => g == id ==> t !in ts
    case AddMarkets(_, _) => true
  }

  ghost predicate AllSpare(cs: seq<Change>, id: Key, t: Ticker) {
    forall i :: 0 <= i < |cs| ==> Spares(cs[i], id, t)
  }

  ghost predicate RestsIn(p: Plan, id: Key, conn: Key, t: Ticker) {
    id in p && p[id].conn == conn && t in p[id].tickers
  }

  lemma {:induction false} SparedRests(p: Plan, cs: seq<Change>, id: Key, conn: Key, t: Ticker)
    requires RestsIn(p, id, conn, t) && AllSpare(cs, id, t)
    ensures RestsIn(ApplyAll(p, cs), id, conn, t)
  {
    if cs != [] { SparedRests(p, cs[..|cs| - 1], id, conn, t); }
  }

  lemma {:induction false} InUnion(chunks: seq<seq<Ticker>>, i: nat, t: Ticker)
    requires i < |chunks| && t in chunks[i]
    ensures t in UnionOf(chunks)
  {
    if i < |chunks| - 1 { InUnion(chunks[..|chunks| - 1], i, t); }
  }

  lemma PiecesSpare(c: Change, n: nat, id: Key, t: Ticker)
    requires n >= 1 && Spares(c, id, t)
    ensures AllSpare(Split(c, n), id, t)
  {
    if c.RemoveMarkets? && Size(c) > n {
      ChunksCover(c.tickers, n);
      forall i | 0 <= i < |Chunks(c.tickers, n)| ensures c.id == id ==> t !in Chunks(c.tickers, n)[i] {
        if t in Chunks(c.tickers, n)[i] { InUnion(Chunks(c.tickers, n), i, t); }
      }
    }
  }

  lemma {:induction false} AllPiecesSpare(cs: seq<Change>, n: nat, id: Key, t: Ticker)
    requires n >= 1 && AllSpare(cs, id, t)
    ensures AllSpare(SplitAll(cs, n), id, t)
  {
    if cs != [] {
      var init, c := cs[..|cs| - 1], cs[|cs| - 1];
      AllPiecesSpare(init, n, id, t);
      PiecesSpare(c, n, id, t);
      assert cs == init + [c];
      SplitSnoc(init, c, n);
    }
  }

  lemma DiffSpares(current: Plan, desired: Plan, id: Key, t: Ticker)
    requires ValidPlan(current) && ValidPlan(desired) && id in current && id in desired
    requires current[id].conn == desired[id].conn && t in current[id].tickers && t in desired[id].tickers
    ensures AllSpare(Diff(current, desired), id, t)
  {
    DiffIsWhatIsCalledFor(current, desired);
    forall i | 0 <= i < |Diff(current, desired)| ensures Spares(Diff(current, desired)[i], id, t) {
      var c := Diff(current, desired)[i];
      assert c in Diff(current, desired);
      assert CalledFor(current, desired, c);
    }
  }

  /** A market that both plans have in one group on one connection is never unsubscribed on the way: it is in that group
      after any number of the pieces. */
  lemma KeptMarketsStay(current: Plan, desired: Plan, n: nat, k: nat, id: Key, t: Ticker)
    requires ValidPlan(current) && ValidPlan(desired) && id in current && id in desired
    requires current[id].conn == desired[id].conn && t in current[id].tickers && t in desired[id].tickers
    requires n >= 1 && k <= |SplitAll(Diff(current, desired), n)|
    ensures RestsIn(ApplyAll(current, SplitAll(Diff(current, desired), n)[..k]), id, current[id].conn, t)
  {
    DiffSpares(current, desired, id, t);
    AllPiecesSpare(Diff(current, desired), n, id, t);
    SparedRests(current, SplitAll(Diff(current, desired), n)[..k], id, current[id].conn, t);
  }

  // ------------------------------------------------------------------ what the pieces of a change name

  function Spelled(chunks: seq<seq<Ticker>>): seq<Ticker> {
    if chunks == [] then [] else Spelled(chunks[..|chunks| - 1]) + chunks[|chunks| - 1]
  }

  lemma {:induction false} SpelledJoin(a: seq<seq<Ticker>>, b: seq<seq<Ticker>>)
    ensures Spelled(a + b) == Spelled(a) + Spelled(b)
  {
    if b == [] {
      assert a + b == a;
    } else {
      SpelledJoin(a, b[..|b| - 1]);
      assert (a + b)[..|a + b| - 1] == a + b[..|b| - 1];
      Join(Spelled(a), Spelled(b[..|b| - 1]), b[|b| - 1]);
    }
  }

  lemma SpelledOne(ts: seq<Ticker>)
    ensures Spelled([ts]) == ts
  {
    assert [ts][..0] == [] && [] + ts == ts;
  }

  ghost predicate AllFull(chunks: seq<seq<Ticker>>, n: nat) {
    forall i: nat :: i + 1 < |chunks| ==> |chunks[i]| == n
  }

  lemma {:induction false} ChunksAreFull(ts: seq<Ticker>, n: nat)
    requires n >= 1
    ensures AllFull(Chunks(ts, n), n) && Spelled(Chunks(ts, n)) == ts
    decreases |ts|
  {
    if ts != [] && |ts| <= n {
      SpelledOne(ts);
    } else if ts != [] {
      ChunksAreFull(ts[n..], n);
      SpelledOne(ts[..n]);
      SpelledJoin([ts[..n]], Chunks(ts[n..], n));
      assert ts[..n] + ts[n..] == ts;
    }
  }

  /** The tickers a change names, in the order it names them. */
  ghost function NamedBy(c: Change): seq<Ticker> {
    match c
    case AddGroup(g) => Sorted(g.tickers)
    case RemoveGroup(_) => []
    case AddMarkets(_, ts) => ts
    case RemoveMarkets(_, ts) => ts
  }

  ghost function NamedByEach(cs: seq<Change>): seq<seq<Ticker>> {
    seq(|cs|, i requires 0 <= i < |cs| => NamedBy(cs[i]))
  }

  /** Pieces name the change's tickers in its order, and every piece but the last as many as are allowed. */
  ghost predicate FullPieces(cs: seq<Change>, ts: seq<Ticker>, n: nat) {
    AllFull(NamedByEach(cs), n) && Spelled(NamedByEach(cs)) == ts
  }

  lemma PrefixIsSorted(ts: seq<Ticker>, n: nat)
    requires Ascending(ts) && n <= |ts|
    ensures Sorted(Elems(ts[..n])) == ts[..n]
  {
    AscendingCount(ts[..n]);
    SortingIsUnique(ts[..n], Sorted(Elems(ts[..n])), Elems(ts[..n]));
  }

  lemma NamedByPieces(head: Change, id: Key, chunks: seq<seq<Ticker>>)
    ensures NamedByEach([head] + AddPieces(id, chunks)) == [NamedBy(head)] + chunks
  {
  }

  lemma HeadIsFull(head: seq<Ticker>, rest: seq<seq<Ticker>>, n: nat)
    requires |head| == n && AllFull(rest, n)
    ensures AllFull([head] + rest, n) && Spelled([head] + rest) == head + Spelled(rest)
  {
    SpelledOne(head);
    SpelledJoin([head], rest);
  }

  lemma LargeGroupIsFull(g: Group, n: nat)
    requires n >= 1 && |g.tickers| > n
    ensures FullPieces(Split(AddGroup(g), n), Sorted(g.tickers), n)
  {
    var ts := Sorted(g.tickers);
    var head, rest := AddGroup(g.(tickers := Elems(ts[..n]))), Chunks(ts[n..], n);
    ChunksAreFull(ts[n..], n);
    PrefixIsSorted(ts, n);
    NamedByPieces(head, g.id, rest);
    HeadIsFull(ts[..n], rest, n);
    assert ts[..n] + ts[n..] == ts;
  }

  /** No more pieces than the limit asks for: a change within it is sent as it is, and a larger one is cut at every
      `n`th ticker of it. */
  lemma PiecesAreFull(c: Change, n: nat)
    requires n >= 1
    ensures Size(c) <= n ==> Split(c, n) == [c]
    ensures Size(c) > n ==> FullPieces(Split(c, n), NamedBy(c), n)
  {
    if Size(c) > n {
      match c
      case AddGroup(g) => LargeGroupIsFull(g, n);
      case AddMarkets(id, ts) =>
        ChunksAreFull(ts, n);
        assert NamedByEach(Split(c, n)) == Chunks(ts, n);
      case RemoveMarkets(id, ts) =>
        ChunksAreFull(ts, n);
        assert NamedByEach(Split(c, n)) == Chunks(ts, n);
      case RemoveGroup(_) =>
    }
  }
}
