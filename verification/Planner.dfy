/** Moving between assignments of markets to connections: `src/tape/recorder/planner.py`. */
module Planner {
  import opened Prelude

  datatype Group = Group(id: Key, conn: Key, tickers: set<Ticker>)

  /** A plan by group id; its canonical tuple is this map in connection order. */
  type Plan = map<Key, Group>

  datatype Change =
    | AddGroup(group: Group)
    | RemoveGroup(id: Key)
    | AddMarkets(id: Key, tickers: seq<Ticker>)
    | RemoveMarkets(id: Key, tickers: seq<Ticker>)

  /** What `Group` and `Plan` refuse to be built without. */
  ghost predicate ValidPlan(p: Plan) {
    && (forall g :: g in p ==> p[g].id == g && p[g].tickers != {})
    && (forall g, h :: g in p && h in p && g != h ==> p[g].conn != p[h].conn && p[g].tickers !! p[h].tickers)
  }

  ghost predicate Capped(p: Plan, cap: nat) {
    forall g :: g in p ==> |p[g].tickers| <= cap
  }

  // ------------------------------------------------------------------ what a change does

  ghost function Apply(p: Plan, c: Change): Plan {
    match c
    case AddGroup(group) => p[group.id := group]
    case RemoveGroup(id) => p - {id}
    case AddMarkets(id, tickers) => if id in p then p[id := p[id].(tickers := p[id].tickers + Elems(tickers))] else p
    case RemoveMarkets(id, tickers) => if id in p then p[id := p[id].(tickers := p[id].tickers - Elems(tickers))] else p
  }

  ghost function ApplyAll(p: Plan, cs: seq<Change>): Plan {
    if cs == [] then p else Apply(ApplyAll(p, cs[..|cs| - 1]), cs[|cs| - 1])
  }

  lemma {:induction false} ApplyAppend(p: Plan, a: seq<Change>, b: seq<Change>)
    ensures ApplyAll(p, a + b) == ApplyAll(ApplyAll(p, a), b)
  {
    if b == [] {
      assert a + b == a;
    } else {
      ApplyAppend(p, a, b[..|b| - 1]);
      assert (a + b)[..|a + b| - 1] == a + b[..|b| - 1];
    }
  }

  lemma ApplyOne(p: Plan, c: Change)
    ensures ApplyAll(p, [c]) == Apply(p, c)
  {
    assert [c][..0] == [];
  }

  // ------------------------------------------------------------------ diff

  predicate MustRebuild(running: Group, wanted: Group) {
    wanted.conn != running.conn || running.tickers !! wanted.tickers
  }

  predicate Kept(current: Plan, desired: Plan, id: Key) {
    id in current && id in desired && !MustRebuild(current[id], desired[id])
  }

  ghost function DropMarkets(ids: seq<Key>, current: Plan, desired: Plan): seq<Change> {
    if ids == [] then [] else
      var id := ids[|ids| - 1];
      DropMarkets(ids[..|ids| - 1], current, desired) +
      (if Kept(current, desired, id) && current[id].tickers - desired[id].tickers != {}
       then [RemoveMarkets(id, Sorted(current[id].tickers - desired[id].tickers))] else [])
  }

  ghost function DropGroups(ids: seq<Key>, current: Plan, desired: Plan): seq<Change> {
    if ids == [] then [] else
      var id := ids[|ids| - 1];
      DropGroups(ids[..|ids| - 1], current, desired) + (if Kept(current, desired, id) then [] else [RemoveGroup(id)])
  }

  ghost function AddGroups(ids: seq<Key>, current: Plan, desired: Plan): seq<Change> {
    if ids == [] then [] else
      var id := ids[|ids| - 1];
      AddGroups(ids[..|ids| - 1], current, desired) +
      (if id in desired && !Kept(current, desired, id) then [AddGroup(desired[id])] else [])
  }

  ghost function GrowGroups(ids: seq<Key>, current: Plan, desired: Plan): seq<Change> {
    if ids == [] then [] else
      var id := ids[|ids| - 1];
      GrowGroups(ids[..|ids| - 1], current, desired) +
      (if Kept(current, desired, id) && desired[id].tickers - current[id].tickers != {}
       then [AddMarkets(id, Sorted(desired[id].tickers - current[id].tickers))] else [])
  }

  ghost function Removals(current: Plan, desired: Plan): seq<Change> {
    DropMarkets(Sorted(current.Keys), current, desired) + DropGroups(Sorted(current.Keys), current, desired)
  }

  ghost function Additions(current: Plan, desired: Plan): seq<Change> {
    AddGroups(Sorted(desired.Keys), current, desired) + GrowGroups(Sorted(current.Keys), current, desired)
  }

  /** Removals before additions. */
  ghost function Diff(current: Plan, desired: Plan): seq<Change> {
    Removals(current, desired) + Additions(current, desired)
  }

  method ComputeDiff(current: Plan, desired: Plan) returns (changes: seq<Change>)
    ensures changes == Diff(current, desired)
  {
    var running := SortKeys(current.Keys);
    var wanted := SortKeys(desired.Keys);
    SortedAreMembers(current.Keys);
    SortedAreMembers(desired.Keys);
    var dropMarkets, dropGroups, addMarkets, rebuilt := ScanRunning(current, desired, running);
    assert forall id :: id in running <==> id in current.Keys;
    var addGroups := ScanWanted(current, desired, wanted, rebuilt);
    changes := dropMarkets + dropGroups + addGroups + addMarkets;
    Join(dropMarkets + dropGroups, addGroups, addMarkets);
  }

  method ScanRunning(current: Plan, desired: Plan, running: seq<Key>)
      returns (dropMarkets: seq<Change>, dropGroups: seq<Change>, addMarkets: seq<Change>, rebuilt: set<Key>)
    requires forall k :: 0 <= k < |running| ==> running[k] in current
    ensures dropMarkets == DropMarkets(running, current, desired)
    ensures dropGroups == DropGroups(running, current, desired)
    ensures addMarkets == GrowGroups(running, current, desired)
    ensures forall id :: id in rebuilt <==> id in running && id in desired && !Kept(current, desired, id)
  {
    dropMarkets, dropGroups, addMarkets, rebuilt := [], [], [], {};
    for k := 0 to |running|
      invariant dropMarkets == DropMarkets(running[..k], current, desired)
      invariant dropGroups == DropGroups(running[..k], current, desired)
      invariant addMarkets == GrowGroups(running[..k], current, desired)
      invariant forall id :: id in rebuilt <==> id in running[..k] && id in desired && !Kept(current, desired, id)
    {
      var id := running[k];
      assert running[..k + 1][..k] == running[..k];
      assert running[..k + 1] == running[..k] + [id];
      if id !in desired || MustRebuild(current[id], desired[id]) {
        dropGroups := dropGroups + [RemoveGroup(id)];
        if id in desired { rebuilt := rebuilt + {id}; }
      } else {
        var less, more := Resize(id, current[id].tickers, desired[id].tickers);
        dropMarkets := dropMarkets + less;
        addMarkets := addMarkets + more;
      }
    }
    assert running[..|running|] == running;
  }

  /** The membership changes of a group that stays subscribed. */
  method Resize(id: Key, has: set<Ticker>, wants: set<Ticker>) returns (less: seq<Change>, more: seq<Change>)
    ensures less == if has - wants != {} then [RemoveMarkets(id, Sorted(has - wants))] else []
    ensures more == if wants - has != {} then [AddMarkets(id, Sorted(wants - has))] else []
  {
    less, more := [], [];
    if has - wants != {} {
      var gone := SortKeys(has - wants);
      less := [RemoveMarkets(id, gone)];
    }
    if wants - has != {} {
      var added := SortKeys(wants - has);
      more := [AddMarkets(id, added)];
    }
  }

  method ScanWanted(current: Plan, desired: Plan, wanted: seq<Key>, rebuilt: set<Key>) returns (addGroups: seq<Change>)
    requires forall k :: 0 <= k < |wanted| ==> wanted[k] in desired
    requires forall id :: id in desired ==> (id in rebuilt <==> id in current && !Kept(current, desired, id))
    ensures addGroups == AddGroups(wanted, current, desired)
  {
    addGroups := [];
    for k := 0 to |wanted|
      invariant addGroups == AddGroups(wanted[..k], current, desired)
    {
      var id := wanted[k];
      assert wanted[..k + 1][..k] == wanted[..k];
      if id !in current || id in rebuilt {
        addGroups := addGroups + [AddGroup(desired[id])];
      }
    }
    assert wanted[..|wanted|] == wanted;
  }

  // ------------------------------------------------------------------ splitting a change

  /** Consecutive runs of at most `n` tickers. */
  function Chunks(ts: seq<Ticker>, n: nat): (r: seq<seq<Ticker>>)
    requires n >= 1
    ensures forall i :: 0 <= i < |r| ==> 0 < |r[i]| <= n
    decreases |ts|
  {
    if ts == [] then [] else if |ts| <= n then [ts] else [ts[..n]] + Chunks(ts[n..], n)
  }

  function AddPieces(id: Key, chunks: seq<seq<Ticker>>): (r: seq<Change>)
    ensures |r| == |chunks| && forall i :: 0 <= i < |r| ==> r[i] == AddMarkets(id, chunks[i])
  {
    seq(|chunks|, i requires 0 <= i < |chunks| => AddMarkets(id, chunks[i]))
  }

  function RemovePieces(id: Key, chunks: seq<seq<Ticker>>): (r: seq<Change>)
    ensures |r| == |chunks| && forall i :: 0 <= i < |r| ==> r[i] == RemoveMarkets(id, chunks[i])
  {
    seq(|chunks|, i requires 0 <= i < |chunks| => RemoveMarkets(id, chunks[i]))
  }

  ghost function Size(c: Change): nat {
    match c
    case AddGroup(group) => |group.tickers|
    case RemoveGroup(_) => 0
    case AddMarkets(_, tickers) => |tickers|
    case RemoveMarkets(_, tickers) => |tickers|
  }

  ghost function Split(c: Change, n: nat): seq<Change>
    requires n >= 1
  {
    if Size(c) <= n then [c] else
      match c
      case AddGroup(group) =>
        var ts := Sorted(group.tickers);
        [AddGroup(group.(tickers := Elems(ts[..n])))] + AddPieces(group.id, Chunks(ts[n..], n))
      case AddMarkets(id, ts) => AddPieces(id, Chunks(ts, n))
      case RemoveMarkets(id, ts) => RemovePieces(id, Chunks(ts, n))
      case RemoveGroup(_) => [c]
  }

  ghost function Concat(pieces: seq<seq<Change>>): seq<Change> {
    if pieces == [] then [] else Concat(pieces[..|pieces| - 1]) + pieces[|pieces| - 1]
  }

  ghost function SplitEach(cs: seq<Change>, n: nat): seq<seq<Change>>
    requires n >= 1
  {
    seq(|cs|, i requires 0 <= i < |cs| => Split(cs[i], n))
  }

  /** The pieces of every change, in order. */
  ghost function SplitAll(cs: seq<Change>, n: nat): seq<Change>
    requires n >= 1
  {
    Concat(SplitEach(cs, n))
  }

  method SplitChange(c: Change, n: nat) returns (pieces: seq<Change>)
    requires n >= 1
    ensures pieces == Split(c, n)
  {
    match c
    case AddGroup(group) =>
      var ts := SortKeys(group.tickers);
      if |group.tickers| <= n { return [c]; }
      pieces := [AddGroup(group.(tickers := Elems(ts[..n])))] + AddPieces(group.id, Chunks(ts[n..], n));
    case AddMarkets(id, ts) => pieces := if |ts| <= n then [c] else AddPieces(id, Chunks(ts, n));
    case RemoveMarkets(id, ts) => pieces := if |ts| <= n then [c] else RemovePieces(id, Chunks(ts, n));
    case RemoveGroup(_) => pieces := [c];
  }

  method SplitChanges(cs: seq<Change>, n: nat) returns (pieces: seq<Change>)
    requires n >= 1
    ensures pieces == SplitAll(cs, n)
  {
    pieces := [];
    for i := 0 to |cs|
      invariant pieces == SplitAll(cs[..i], n)
    {
      var more := SplitChange(cs[i], n);
      SplitSnoc(cs[..i], cs[i], n);
      assert cs[..i + 1] == cs[..i] + [cs[i]];
      pieces := pieces + more;
    }
    assert cs[..|cs|] == cs;
  }

  lemma {:induction false} ConcatAppend(a: seq<seq<Change>>, b: seq<seq<Change>>)
    ensures Concat(a + b) == Concat(a) + Concat(b)
  {
    if b == [] {
      assert a + b == a;
    } else {
      var init, last := b[..|b| - 1], b[|b| - 1];
      ConcatAppend(a, init);
      assert (a + b)[..|a + b| - 1] == a + init;
      Join(Concat(a), Concat(init), last);
    }
  }

  lemma SplitSnoc(cs: seq<Change>, c: Change, n: nat)
    requires n >= 1
    ensures SplitAll(cs + [c], n) == SplitAll(cs, n) + Split(c, n)
  {
    assert SplitEach(cs + [c], n)[..|cs|] == SplitEach(cs, n);
  }

  lemma SplitAllAppend(a: seq<Change>, b: seq<Change>, n: nat)
    requires n >= 1
    ensures SplitAll(a + b, n) == SplitAll(a, n) + SplitAll(b, n)
  {
    assert SplitEach(a + b, n) == SplitEach(a, n) + SplitEach(b, n);
    ConcatAppend(SplitEach(a, n), SplitEach(b, n));
  }

  lemma {:induction false} PrefixSet(ts: seq<Ticker>, n: nat)
    requires n <= |ts|
    ensures Elems(ts) == Elems(ts[..n]) + Elems(ts[n..])
    ensures Distinct(ts) ==> |Elems(ts[..n])| == n
  {
    assert ts == ts[..n] + ts[n..];
    assert forall x :: x in ts <==> x in ts[..n] || x in ts[n..];
    if Distinct(ts) { DistinctCount(ts[..n]); }
  }

  /** No piece names more than `n` markets. */
  lemma PiecesAreSmall(c: Change, n: nat)
    requires n >= 1
    ensures forall i :: 0 <= i < |Split(c, n)| ==> Size(Split(c, n)[i]) <= n
  {
    if c.AddGroup? && Size(c) > n {
      var ts := Sorted(c.group.tickers);
      PrefixSet(ts, n);
    }
  }

  lemma {:induction false} AllPiecesAreSmall(cs: seq<Change>, n: nat)
    requires n >= 1
    ensures forall i :: 0 <= i < |SplitAll(cs, n)| ==> Size(SplitAll(cs, n)[i]) <= n
  {
    if cs != [] {
      var init, c := cs[..|cs| - 1], cs[|cs| - 1];
      AllPiecesAreSmall(init, n);
      PiecesAreSmall(c, n);
      assert cs == init + [c];
      SplitSnoc(init, c, n);
    }
  }

  // ------------------------------------------------------------------ pieces of one change

  ghost function UnionOf(chunks: seq<seq<Ticker>>): set<Ticker> {
    if chunks == [] then {} else UnionOf(chunks[..|chunks| - 1]) + Elems(chunks[|chunks| - 1])
  }

  lemma {:induction false} UnionAppend(a: seq<seq<Ticker>>, b: seq<seq<Ticker>>)
    ensures UnionOf(a + b) == UnionOf(a) + UnionOf(b)
  {
    if b == [] {
      assert a + b == a;
    } else {
      UnionAppend(a, b[..|b| - 1]);
      assert (a + b)[..|a + b| - 1] == a + b[..|b| - 1];
    }
  }

  lemma {:induction false} ChunksCover(ts: seq<Ticker>, n: nat)
    requires n >= 1
    ensures UnionOf(Chunks(ts, n)) == Elems(ts)
    decreases |ts|
  {
    if ts != [] && |ts| <= n {
      assert [ts][..0] == [];
    } else if ts != [] {
      ChunksCover(ts[n..], n);
      UnionAppend([ts[..n]], Chunks(ts[n..], n));
      assert [ts[..n]][..0] == [];
      PrefixSet(ts, n);
    }
  }

  /** The plan with one group's members replaced. */
  ghost function Resized(p: Plan, id: Key, tickers: set<Ticker>): Plan
    requires id in p
  {
    p[id := p[id].(tickers := tickers)]
  }

  lemma {:induction false} RemovePiecesApply(p: Plan, id: Key, chunks: seq<seq<Ticker>>)
    requires id in p
    ensures ApplyAll(p, RemovePieces(id, chunks)) == Resized(p, id, p[id].tickers - UnionOf(chunks))
  {
    if chunks == [] {
      assert p[id].tickers - {} == p[id].tickers;
    } else {
      var init := chunks[..|chunks| - 1];
      RemovePiecesApply(p, id, init);
      assert RemovePieces(id, chunks)[..|chunks| - 1] == RemovePieces(id, init);
      assert p[id].tickers - UnionOf(init) - Elems(chunks[|chunks| - 1]) == p[id].tickers - UnionOf(chunks);
    }
  }

  lemma {:induction false} AddPiecesApply(p: Plan, id: Key, chunks: seq<seq<Ticker>>)
    requires id in p
    ensures ApplyAll(p, AddPieces(id, chunks)) == Resized(p, id, p[id].tickers + UnionOf(chunks))
  {
    if chunks == [] {
      assert p[id].tickers + {} == p[id].tickers;
    } else {
      var init := chunks[..|chunks| - 1];
      AddPiecesApply(p, id, init);
      assert AddPieces(id, chunks)[..|chunks| - 1] == AddPieces(id, init);
      assert p[id].tickers + UnionOf(init) + Elems(chunks[|chunks| - 1]) == p[id].tickers + UnionOf(chunks);
    }
  }

  lemma SortedElems(s: set<Ticker>)
    ensures Elems(Sorted(s)) == s
  {
  }

  /** Whether a change names a group the plan has, or, to add it, one the plan has not. */
  ghost predicate Names(p: Plan, c: Change) {
    match c
    case AddGroup(group) => group.id !in p
    case RemoveGroup(id) => id in p
    case AddMarkets(id, _) => id in p
    case RemoveMarkets(id, _) => id in p
  }

  ghost function Head(group: Group, n: nat): Change
    requires n <= |Sorted(group.tickers)|
  {
    AddGroup(group.(tickers := Elems(Sorted(group.tickers)[..n])))
  }

  ghost function Rest(group: Group, n: nat): seq<seq<Ticker>>
    requires 1 <= n <= |Sorted(group.tickers)|
  {
    Chunks(Sorted(group.tickers)[n..], n)
  }

  /** The first piece of a large group, and the rest that completes it. */
  lemma HeadCompletes(p: Plan, group: Group, n: nat)
    requires 1 <= n <= |Sorted(group.tickers)|
    ensures var q, chunks := Apply(p, Head(group, n)), Rest(group, n);
            && group.id in q && q[group.id].id == group.id && q[group.id].conn == group.conn
            && q[group.id].tickers != {} && q[group.id].tickers <= group.tickers
            && q[group.id].tickers + UnionOf(chunks) == group.tickers
  {
    var ts := Sorted(group.tickers);
    PrefixSet(ts, n);
    ChunksCover(ts[n..], n);
    SortedElems(group.tickers);
    assert ts[..n][0] in Elems(ts[..n]);
  }

  lemma LargeGroupPieces(group: Group, n: nat)
    requires 1 <= n < |group.tickers|
    ensures Split(AddGroup(group), n) == [Head(group, n)] + AddPieces(group.id, Rest(group, n))
  {
  }

  lemma Completed(p: Plan, group: Group, head: Group)
    requires head.id == group.id && head.conn == group.conn
    ensures Resized(p[group.id := head], group.id, group.tickers) == p[group.id := group]
  {
  }

  lemma AddGroupSplits(p: Plan, group: Group, n: nat)
    requires 1 <= n < |group.tickers|
    ensures ApplyAll(p, Split(AddGroup(group), n)) == p[group.id := group]
  {
    LargeGroupPieces(group, n);
    var chunks, head := Rest(group, n), Head(group, n);
    var q := Apply(p, head);
    HeadCompletes(p, group, n);
    ApplyAppend(p, [head], AddPieces(group.id, chunks));
    ApplyOne(p, head);
    AddPiecesApply(q, group.id, chunks);
    Completed(p, group, head.group);
  }

  /** Applying the pieces of a change does exactly what applying the change does. */
  lemma SplitMeansTheSame(p: Plan, c: Change, n: nat)
    requires n >= 1 && Names(p, c)
    ensures ApplyAll(p, Split(c, n)) == Apply(p, c)
  {
    if Size(c) <= n {
      ApplyOne(p, c);
    } else {
      match c
      case AddGroup(group) => AddGroupSplits(p, group, n);
      case AddMarkets(id, ts) =>
        AddPiecesApply(p, id, Chunks(ts, n));
        ChunksCover(ts, n);
      case RemoveMarkets(id, ts) =>
        RemovePiecesApply(p, id, Chunks(ts, n));
        ChunksCover(ts, n);
      case RemoveGroup(_) =>
    }
  }

  // ------------------------------------------------------------------ every step on the way is a valid plan

  /** `p` holds some groups of `q`, each where `q` has it, with some of its members. */
  ghost predicate Within(p: Plan, q: Plan) {
    forall g :: g in p ==>
      (g in q && p[g].id == q[g].id && p[g].conn == q[g].conn && p[g].tickers != {} && p[g].tickers <= q[g].tickers)
  }

  lemma WithinIsValid(p: Plan, q: Plan, cap: nat)
    requires ValidPlan(q) && Within(p, q)
    ensures ValidPlan(p)
    ensures Capped(q, cap) ==> Capped(p, cap)
  {
    if Capped(q, cap) {
      forall g | g in p ensures |p[g].tickers| <= cap {
        assert q[g].tickers == p[g].tickers + (q[g].tickers - p[g].tickers);
      }
    }
  }

  /** Every plan passed through stays within `q`. */
  ghost predicate Stays(p: Plan, cs: seq<Change>, q: Plan) {
    forall k :: 0 <= k <= |cs| ==> Within(ApplyAll(p, cs[..k]), q)
  }

  lemma AppendStays(p: Plan, a: seq<Change>, b: seq<Change>, q: Plan)
    requires Stays(p, a, q) && Stays(ApplyAll(p, a), b, q)
    ensures Stays(p, a + b, q)
  {
    forall k | 0 <= k <= |a + b| ensures Within(ApplyAll(p, (a + b)[..k]), q) {
      if k <= |a| {
        assert (a + b)[..k] == a[..k];
      } else {
        assert (a + b)[..k] == a + b[..k - |a|];
        ApplyAppend(p, a, b[..k - |a|]);
      }
    }
  }

  lemma StaysStill(p: Plan, q: Plan)
    requires Within(p, q)
    ensures Stays(p, [], q) && ApplyAll(p, []) == p
  {
  }

  lemma OneStays(p: Plan, c: Change, q: Plan)
    requires Within(p, q) && Within(Apply(p, c), q)
    ensures Stays(p, [c], q)
  {
    ApplyOne(p, c);
    forall k | 0 <= k <= 1 ensures Within(ApplyAll(p, [c][..k]), q) {
      assert [c][..0] == [] && [c][..1] == [c];
    }
  }

  lemma RemovePiecesStay(p: Plan, id: Key, chunks: seq<seq<Ticker>>, q: Plan)
    requires id in p && Within(p, q) && p[id].tickers - UnionOf(chunks) != {}
    ensures Stays(p, RemovePieces(id, chunks), q)
  {
    var cs := RemovePieces(id, chunks);
    forall k | 0 <= k <= |cs| ensures Within(ApplyAll(p, cs[..k]), q) {
      assert cs[..k] == RemovePieces(id, chunks[..k]);
      RemovePiecesApply(p, id, chunks[..k]);
      assert chunks == chunks[..k] + chunks[k..];
      UnionAppend(chunks[..k], chunks[k..]);
    }
  }

  lemma AddPiecesStay(p: Plan, id: Key, chunks: seq<seq<Ticker>>, q: Plan)
    requires id in p && Within(p, q) && UnionOf(chunks) <= q[id].tickers
    ensures Stays(p, AddPieces(id, chunks), q)
  {
    var cs := AddPieces(id, chunks);
    forall k | 0 <= k <= |cs| ensures Within(ApplyAll(p, cs[..k]), q) {
      assert cs[..k] == AddPieces(id, chunks[..k]);
      AddPiecesApply(p, id, chunks[..k]);
      assert chunks == chunks[..k] + chunks[k..];
      UnionAppend(chunks[..k], chunks[k..]);
    }
  }

  lemma AddGroupStays(p: Plan, group: Group, n: nat, q: Plan)
    requires 1 <= n < |group.tickers| && group.id !in p && Within(p, q) && Within(p[group.id := group], q)
    ensures Stays(p, Split(AddGroup(group), n), q)
  {
    LargeGroupPieces(group, n);
    var chunks, head := Rest(group, n), Head(group, n);
    var after := Apply(p, head);
    HeadCompletes(p, group, n);
    assert p[group.id := group][group.id] == group;
    assert Within(after, q);
    OneStays(p, head, q);
    ApplyOne(p, head);
    AddPiecesStay(after, group.id, chunks, q);
    AppendStays(p, [head], AddPieces(group.id, chunks), q);
  }

  lemma SplitStays(p: Plan, c: Change, n: nat, q: Plan)
    requires n >= 1 && Names(p, c) && Within(p, q) && Within(Apply(p, c), q)
    ensures Stays(p, Split(c, n), q)
  {
    if Size(c) <= n {
      OneStays(p, c, q);
    } else {
      match c
      case AddGroup(group) => AddGroupStays(p, group, n, q);
      case AddMarkets(id, ts) =>
        ChunksCover(ts, n);
        assert Apply(p, c)[id].tickers == p[id].tickers + Elems(ts);
        AddPiecesStay(p, id, Chunks(ts, n), q);
      case RemoveMarkets(id, ts) =>
        ChunksCover(ts, n);
        assert Apply(p, c)[id].tickers == p[id].tickers - Elems(ts);
        RemovePiecesStay(p, id, Chunks(ts, n), q);
      case RemoveGroup(_) =>
    }
  }

  /** No change names a group the plan lacks when it is applied. */
  ghost predicate Named(p: Plan, cs: seq<Change>) {
    forall k :: 0 <= k < |cs| ==> Names(ApplyAll(p, cs[..k]), cs[k])
  }

  lemma AppendNamed(p: Plan, a: seq<Change>, b: seq<Change>)
    requires Named(p, a) && Named(ApplyAll(p, a), b)
    ensures Named(p, a + b)
  {
    forall k | 0 <= k < |a + b| ensures Names(ApplyAll(p, (a + b)[..k]), (a + b)[k]) {
      if k < |a| {
        assert (a + b)[..k] == a[..k];
      } else {
        assert (a + b)[..k] == a + b[..k - |a|];
        ApplyAppend(p, a, b[..k - |a|]);
      }
    }
  }

  lemma AddPiecesNamed(p: Plan, id: Key, chunks: seq<seq<Ticker>>)
    requires id in p
    ensures Named(p, AddPieces(id, chunks))
  {
    var cs := AddPieces(id, chunks);
    forall k | 0 <= k < |cs| ensures Names(ApplyAll(p, cs[..k]), cs[k]) {
      assert cs[..k] == AddPieces(id, chunks[..k]);
      AddPiecesApply(p, id, chunks[..k]);
    }
  }

  lemma RemovePiecesNamed(p: Plan, id: Key, chunks: seq<seq<Ticker>>)
    requires id in p
    ensures Named(p, RemovePieces(id, chunks))
  {
    var cs := RemovePieces(id, chunks);
    forall k | 0 <= k < |cs| ensures Names(ApplyAll(p, cs[..k]), cs[k]) {
      assert cs[..k] == RemovePieces(id, chunks[..k]);
      RemovePiecesApply(p, id, chunks[..k]);
    }
  }

  lemma OneNamed(p: Plan, c: Change)
    requires Names(p, c)
    ensures Named(p, [c])
  {
    assert [c][..0] == [];
  }

  lemma SplitNamed(p: Plan, c: Change, n: nat)
    requires n >= 1 && Names(p, c)
    ensures Named(p, Split(c, n))
  {
    if Size(c) <= n {
      OneNamed(p, c);
    } else {
      match c
      case AddGroup(group) =>
        LargeGroupPieces(group, n);
        OneNamed(p, Head(group, n));
        ApplyOne(p, Head(group, n));
        HeadCompletes(p, group, n);
        AddPiecesNamed(Apply(p, Head(group, n)), group.id, Rest(group, n));
        AppendNamed(p, [Head(group, n)], AddPieces(group.id, Rest(group, n)));
      case AddMarkets(id, ts) => AddPiecesNamed(p, id, Chunks(ts, n));
      case RemoveMarkets(id, ts) => RemovePiecesNamed(p, id, Chunks(ts, n));
      case RemoveGroup(_) =>
    }
  }

  /** `cs` leads from `p` to `at` without leaving `q` and without naming a group that is not there. */
  ghost predicate Leads(p: Plan, cs: seq<Change>, at: Plan, q: Plan) {
    Stays(p, cs, q) && ApplyAll(p, cs) == at && Named(p, cs)
  }

  lemma LeadsOn(p: Plan, a: seq<Change>, mid: Plan, b: seq<Change>, at: Plan, q: Plan)
    requires Leads(p, a, mid, q) && Leads(mid, b, at, q)
    ensures Leads(p, a + b, at, q)
  {
    AppendStays(p, a, b, q);
    ApplyAppend(p, a, b);
    AppendNamed(p, a, b);
  }

  lemma LeadsStep(p: Plan, cs: seq<Change>, at: Plan, c: Change, n: nat, q: Plan)
    requires n >= 1 && Leads(p, cs, at, q)
    requires Names(at, c) && Within(Apply(at, c), q)
    ensures Leads(p, cs + Split(c, n), Apply(at, c), q)
  {
    assert cs[..|cs|] == cs;
    SplitStays(at, c, n, q);
    SplitMeansTheSame(at, c, n);
    SplitNamed(at, c, n);
    LeadsOn(p, cs, at, Split(c, n), Apply(at, c), q);
  }

  lemma SetFacts(a: set<Ticker>, b: set<Ticker>)
    ensures a - (a - b) == a * b && a * b + (b - a) == b
    ensures a - b == {} ==> a * b == a
    ensures b - a == {} ==> a * b == b
  {
  }

  // ------------------------------------------------------------------ the four phases

  ghost function Shared(current: Plan, desired: Plan, g: Key): Group
    requires g in current && g in desired
  {
    current[g].(tickers := current[g].tickers * desired[g].tickers)
  }

  ghost function Trimmed(current: Plan, desired: Plan, ids: seq<Key>): Plan {
    map g | g in current :: if Kept(current, desired, g) && g in ids then Shared(current, desired, g) else current[g]
  }

  ghost function Thinned(current: Plan, desired: Plan, ids: seq<Key>): Plan {
    map g | g in current && (Kept(current, desired, g) || g !in ids) ::
      if Kept(current, desired, g) then Shared(current, desired, g) else current[g]
  }

  ghost function Refilled(current: Plan, desired: Plan, ids: seq<Key>): Plan {
    map g | g in desired && (Kept(current, desired, g) || g in ids) ::
      if Kept(current, desired, g) then Shared(current, desired, g) else desired[g]
  }

  ghost function Grown(current: Plan, desired: Plan, ids: seq<Key>): Plan {
    map g | g in desired :: if Kept(current, desired, g) && g !in ids then Shared(current, desired, g) else desired[g]
  }

  lemma SharedIsWithin(current: Plan, desired: Plan, g: Key)
    requires Kept(current, desired, g)
    ensures var s := Shared(current, desired, g);
            && s.tickers != {} && s.tickers <= current[g].tickers && s.tickers <= desired[g].tickers
            && s.id == current[g].id && s.conn == current[g].conn && s.conn == desired[g].conn
  {
    var t :| t in current[g].tickers && t in desired[g].tickers;
    assert t in Shared(current, desired, g).tickers;
  }

  lemma PhasesAreWithin(current: Plan, desired: Plan, ids: seq<Key>)
    requires ValidPlan(current) && ValidPlan(desired)
    ensures Within(Trimmed(current, desired, ids), current) && Within(Thinned(current, desired, ids), current)
    ensures Within(Refilled(current, desired, ids), desired) && Within(Grown(current, desired, ids), desired)
  {
    forall g | Kept(current, desired, g)
      ensures var s := Shared(current, desired, g);
              && s.tickers != {} && s.tickers <= current[g].tickers && s.tickers <= desired[g].tickers
              && s.id == g && s.conn == current[g].conn && s.conn == desired[g].conn
    {
      SharedIsWithin(current, desired, g);
    }
  }

  ghost function Gone(current: Plan, desired: Plan, id: Key): set<Ticker>
    requires id in current && id in desired
  {
    current[id].tickers - desired[id].tickers
  }

  ghost function Added(current: Plan, desired: Plan, id: Key): set<Ticker>
    requires id in current && id in desired
  {
    desired[id].tickers - current[id].tickers
  }

  lemma TrimApplies(current: Plan, desired: Plan, init: seq<Key>, id: Key)
    requires Kept(current, desired, id) && id !in init
    ensures Trimmed(current, desired, init + [id]) ==
            Apply(Trimmed(current, desired, init), RemoveMarkets(id, Sorted(Gone(current, desired, id))))
  {
    SetFacts(current[id].tickers, desired[id].tickers);
    SortedElems(Gone(current, desired, id));
    assert Trimmed(current, desired, init)[id] == current[id];
  }

  lemma TrimStep(current: Plan, desired: Plan, init: seq<Key>, id: Key)
    requires id in current && id !in init
    ensures !Kept(current, desired, id) || Gone(current, desired, id) == {} ==>
      Trimmed(current, desired, init + [id]) == Trimmed(current, desired, init)
    ensures Kept(current, desired, id) ==>
      Trimmed(current, desired, init + [id]) ==
          Apply(Trimmed(current, desired, init), RemoveMarkets(id, Sorted(Gone(current, desired, id))))
    ensures id in Trimmed(current, desired, init)
  {
    if Kept(current, desired, id) {
      TrimApplies(current, desired, init, id);
      SetFacts(current[id].tickers, desired[id].tickers);
    }
  }

  lemma ThinStep(current: Plan, desired: Plan, init: seq<Key>, id: Key)
    requires id in current && id !in init
    ensures Kept(current, desired, id) ==> Thinned(current, desired, init + [id]) == Thinned(current, desired, init)
    ensures !Kept(current, desired, id) ==>
            Thinned(current, desired, init + [id]) == Apply(Thinned(current, desired, init), RemoveGroup(id))
    ensures id in Thinned(current, desired, init)
  {
  }

  lemma RefillStep(current: Plan, desired: Plan, init: seq<Key>, id: Key)
    requires ValidPlan(desired) && id in desired && id !in init
    ensures Kept(current, desired, id) ==> Refilled(current, desired, init + [id]) == Refilled(current, desired, init)
    ensures !Kept(current, desired, id) ==> id !in Refilled(current, desired, init)
    ensures !Kept(current, desired, id) ==>
      Refilled(current, desired, init + [id]) == Apply(Refilled(current, desired, init), AddGroup(desired[id]))
  {
  }

  lemma GrowApplies(current: Plan, desired: Plan, init: seq<Key>, id: Key)
    requires ValidPlan(current) && ValidPlan(desired) && Kept(current, desired, id) && id !in init
    ensures Grown(current, desired, init + [id]) ==
            Apply(Grown(current, desired, init), AddMarkets(id, Sorted(Added(current, desired, id))))
  {
    var added := Added(current, desired, id);
    SetFacts(current[id].tickers, desired[id].tickers);
    SortedElems(added);
    GrowPuts(current, desired, init, id);
    assert Grown(current, desired, init)[id].(tickers := Shared(current, desired, id).tickers + added) == desired[id];
  }

  lemma GrowPuts(current: Plan, desired: Plan, init: seq<Key>, id: Key)
    requires Kept(current, desired, id) && id !in init
    ensures Grown(current, desired, init + [id]) == Grown(current, desired, init)[id := desired[id]]
    ensures Grown(current, desired, init)[id] == Shared(current, desired, id)
  {
  }

  lemma GrowStep(current: Plan, desired: Plan, init: seq<Key>, id: Key)
    requires ValidPlan(current) && ValidPlan(desired) && id in current && id !in init
    ensures !Kept(current, desired, id) || Added(current, desired, id) == {} ==>
      Grown(current, desired, init + [id]) == Grown(current, desired, init)
    ensures Kept(current, desired, id) ==>
      Grown(current, desired, init + [id]) ==
          Apply(Grown(current, desired, init), AddMarkets(id, Sorted(Added(current, desired, id))))
    ensures Kept(current, desired, id) ==> id in Grown(current, desired, init)
  {
    if Kept(current, desired, id) {
      GrowApplies(current, desired, init, id);
      SetFacts(current[id].tickers, desired[id].tickers);
    }
  }

  lemma {:induction false} DropMarketsPhase(ids: seq<Key>, current: Plan, desired: Plan, n: nat)
    requires n >= 1 && ValidPlan(current) && ValidPlan(desired) && Distinct(ids)
    requires forall k :: 0 <= k < |ids| ==> ids[k] in current
    ensures Leads(current, SplitAll(DropMarkets(ids, current, desired), n), Trimmed(current, desired, ids), current)
  {
    if ids == [] {
      PhasesAreWithin(current, desired, []);
      assert Trimmed(current, desired, []) == current;
      StaysStill(current, current);
    } else {
      var init, id := ids[..|ids| - 1], ids[|ids| - 1];
      assert ids == init + [id] && id !in init;
      DropMarketsPhase(init, current, desired, n);
      PhasesAreWithin(current, desired, ids);
      TrimStep(current, desired, init, id);
      var before := DropMarkets(init, current, desired);
      if Kept(current, desired, id) && Gone(current, desired, id) != {} {
        var c := RemoveMarkets(id, Sorted(Gone(current, desired, id)));
        assert DropMarkets(ids, current, desired) == before + [c];
        SplitSnoc(before, c, n);
        LeadsStep(current, SplitAll(before, n), Trimmed(current, desired, init), c, n, current);
      } else {
        assert DropMarkets(ids, current, desired) == before;
      }
    }
  }

  lemma {:induction false} DropGroupsPhase(ids: seq<Key>, current: Plan, desired: Plan, n: nat)
    requires n >= 1 && ValidPlan(current) && ValidPlan(desired) && Distinct(ids)
    requires forall k :: 0 <= k < |ids| ==> ids[k] in current
    ensures Leads(Thinned(current, desired, []), SplitAll(DropGroups(ids, current, desired), n),
            Thinned(current, desired, ids), current)
  {
    if ids == [] {
      PhasesAreWithin(current, desired, []);
      StaysStill(Thinned(current, desired, []), current);
    } else {
      var init, id := ids[..|ids| - 1], ids[|ids| - 1];
      assert ids == init + [id] && id !in init;
      DropGroupsPhase(init, current, desired, n);
      PhasesAreWithin(current, desired, ids);
      ThinStep(current, desired, init, id);
      var before := DropGroups(init, current, desired);
      if !Kept(current, desired, id) {
        var c := RemoveGroup(id);
        assert DropGroups(ids, current, desired) == before + [c];
        SplitSnoc(before, c, n);
        LeadsStep(Thinned(current, desired, []), SplitAll(before, n), Thinned(current, desired, init), c, n, current);
      } else {
        assert DropGroups(ids, current, desired) == before;
      }
    }
  }

  lemma {:induction false} AddGroupsPhase(ids: seq<Key>, current: Plan, desired: Plan, n: nat)
    requires n >= 1 && ValidPlan(current) && ValidPlan(desired) && Distinct(ids)
    requires forall k :: 0 <= k < |ids| ==> ids[k] in desired
    ensures Leads(Refilled(current, desired, []), SplitAll(AddGroups(ids, current, desired), n),
            Refilled(current, desired, ids), desired)
  {
    if ids == [] {
      PhasesAreWithin(current, desired, []);
      StaysStill(Refilled(current, desired, []), desired);
    } else {
      var init, id := ids[..|ids| - 1], ids[|ids| - 1];
      assert ids == init + [id] && id !in init;
      AddGroupsPhase(init, current, desired, n);
      PhasesAreWithin(current, desired, ids);
      RefillStep(current, desired, init, id);
      var before := AddGroups(init, current, desired);
      if !Kept(current, desired, id) {
        var c := AddGroup(desired[id]);
        assert AddGroups(ids, current, desired) == before + [c];
        SplitSnoc(before, c, n);
        LeadsStep(Refilled(current, desired, []), SplitAll(before, n), Refilled(current, desired, init), c, n, desired);
      } else {
        assert AddGroups(ids, current, desired) == before;
      }
    }
  }

  lemma {:induction false} GrowGroupsPhase(ids: seq<Key>, current: Plan, desired: Plan, n: nat)
    requires n >= 1 && ValidPlan(current) && ValidPlan(desired) && Distinct(ids)
    requires forall k :: 0 <= k < |ids| ==> ids[k] in current
    ensures Leads(Grown(current, desired, []), SplitAll(GrowGroups(ids, current, desired), n),
            Grown(current, desired, ids), desired)
  {
    if ids == [] {
      PhasesAreWithin(current, desired, []);
      StaysStill(Grown(current, desired, []), desired);
    } else {
      var init, id := ids[..|ids| - 1], ids[|ids| - 1];
      assert ids == init + [id] && id !in init;
      GrowGroupsPhase(init, current, desired, n);
      PhasesAreWithin(current, desired, ids);
      GrowStep(current, desired, init, id);
      var before := GrowGroups(init, current, desired);
      if Kept(current, desired, id) && Added(current, desired, id) != {} {
        var c := AddMarkets(id, Sorted(Added(current, desired, id)));
        assert GrowGroups(ids, current, desired) == before + [c];
        SplitSnoc(before, c, n);
        LeadsStep(Grown(current, desired, []), SplitAll(before, n), Grown(current, desired, init), c, n, desired);
      } else {
        assert GrowGroups(ids, current, desired) == before;
      }
    }
  }

  lemma TrimmedIsThinned(current: Plan, desired: Plan, ids: seq<Key>)
    requires forall g :: g in current ==> g in ids
    ensures Trimmed(current, desired, ids) == Thinned(current, desired, [])
  {
  }

  lemma ThinnedIsRefilled(current: Plan, desired: Plan, ids: seq<Key>)
    requires ValidPlan(current) && ValidPlan(desired) && forall g :: g in current ==> g in ids
    ensures Thinned(current, desired, ids) == Refilled(current, desired, [])
  {
  }

  lemma RefilledIsGrown(current: Plan, desired: Plan, ids: seq<Key>)
    requires forall g :: g in desired ==> g in ids
    ensures Refilled(current, desired, ids) == Grown(current, desired, [])
  {
  }

  lemma GrownIsDesired(current: Plan, desired: Plan, ids: seq<Key>)
    requires forall g :: g in current ==> g in ids
    ensures Grown(current, desired, ids) == desired
  {
  }

  lemma PhasesMeet(current: Plan, desired: Plan)
    requires ValidPlan(current) && ValidPlan(desired)
    ensures Trimmed(current, desired, Sorted(current.Keys)) == Thinned(current, desired, [])
    ensures Thinned(current, desired, Sorted(current.Keys)) == Refilled(current, desired, [])
    ensures Refilled(current, desired, Sorted(desired.Keys)) == Grown(current, desired, [])
    ensures Grown(current, desired, Sorted(current.Keys)) == desired
  {
    assert forall g :: g in current ==> g in current.Keys && g in Sorted(current.Keys);
    assert forall g :: g in desired ==> g in desired.Keys && g in Sorted(desired.Keys);
    TrimmedIsThinned(current, desired, Sorted(current.Keys));
    ThinnedIsRefilled(current, desired, Sorted(current.Keys));
    RefilledIsGrown(current, desired, Sorted(desired.Keys));
    GrownIsDesired(current, desired, Sorted(current.Keys));
  }

  lemma SortedAreMembers(s: set<Key>)
    ensures Distinct(Sorted(s))
    ensures forall k :: 0 <= k < |Sorted(s)| ==> Sorted(s)[k] in s
  {
    forall k | 0 <= k < |Sorted(s)| ensures Sorted(s)[k] in s { assert Sorted(s)[k] in Sorted(s); }
  }

  lemma RemovalsPhase(current: Plan, desired: Plan, n: nat)
    requires n >= 1 && ValidPlan(current) && ValidPlan(desired)
    ensures Leads(current, SplitAll(Removals(current, desired), n), Refilled(current, desired, []), current)
  {
    var ids := Sorted(current.Keys);
    var a, b := DropMarkets(ids, current, desired), DropGroups(ids, current, desired);
    SortedAreMembers(current.Keys);
    DropMarketsPhase(ids, current, desired, n);
    DropGroupsPhase(ids, current, desired, n);
    PhasesMeet(current, desired);
    SplitAllAppend(a, b, n);
    LeadsOn(current, SplitAll(a, n), Thinned(current, desired, []), SplitAll(b, n), Refilled(current, desired, []),
        current);
  }

  lemma AdditionsPhase(current: Plan, desired: Plan, n: nat)
    requires n >= 1 && ValidPlan(current) && ValidPlan(desired)
    ensures Leads(Refilled(current, desired, []), SplitAll(Additions(current, desired), n), desired, desired)
  {
    var wanted, running := Sorted(desired.Keys), Sorted(current.Keys);
    var a, b := AddGroups(wanted, current, desired), GrowGroups(running, current, desired);
    SortedAreMembers(current.Keys);
    SortedAreMembers(desired.Keys);
    AddGroupsPhase(wanted, current, desired, n);
    GrowGroupsPhase(running, current, desired, n);
    PhasesMeet(current, desired);
    SplitAllAppend(a, b, n);
    LeadsOn(Refilled(current, desired, []), SplitAll(a, n), Grown(current, desired, []), SplitAll(b, n), desired,
        desired);
  }

  lemma PrefixIsValid(p: Plan, r: seq<Change>, mid: Plan, a: seq<Change>, end: Plan, cap: nat, k: nat)
    requires ValidPlan(p) && ValidPlan(end) && Leads(p, r, mid, p) && Leads(mid, a, end, end) && k <= |r + a|
    ensures ApplyAll(p, r + a) == end && ValidPlan(ApplyAll(p, (r + a)[..k]))
    ensures Capped(p, cap) && Capped(end, cap) ==> Capped(ApplyAll(p, (r + a)[..k]), cap)
    ensures Named(p, r + a)
  {
    ApplyAppend(p, r, a);
    AppendNamed(p, r, a);
    if k <= |r| {
      assert (r + a)[..k] == r[..k];
      WithinIsValid(ApplyAll(p, r[..k]), p, cap);
    } else {
      assert (r + a)[..k] == r + a[..k - |r|];
      ApplyAppend(p, r, a[..k - |r|]);
      WithinIsValid(ApplyAll(mid, a[..k - |r|]), end, cap);
    }
  }

  /** Applying the pieces of `diff` one by one passes only through valid plans, over no cap that both
      ends respect, names no group that is not there, and ends exactly at the desired plan. */
  lemma PiecesAreSafe(current: Plan, desired: Plan, n: nat, cap: nat, k: nat)
    requires n >= 1 && ValidPlan(current) && ValidPlan(desired)
    requires k <= |SplitAll(Diff(current, desired), n)|
    ensures ApplyAll(current, SplitAll(Diff(current, desired), n)) == desired
    ensures ValidPlan(ApplyAll(current, SplitAll(Diff(current, desired), n)[..k]))
    ensures Capped(current, cap) && Capped(desired, cap) ==>
            Capped(ApplyAll(current, SplitAll(Diff(current, desired), n)[..k]), cap)
    ensures Named(current, SplitAll(Diff(current, desired), n))
  {
    RemovalsPhase(current, desired, n);
    AdditionsPhase(current, desired, n);
    SplitAllAppend(Removals(current, desired), Additions(current, desired), n);
    PrefixIsValid(current, SplitAll(Removals(current, desired), n), Refilled(current, desired, []),
                  SplitAll(Additions(current, desired), n), desired, cap, k);
  }

  lemma PrefixIsWithin(p: Plan, r: seq<Change>, mid: Plan, a: seq<Change>, end: Plan, k: nat)
    requires Leads(p, r, mid, p) && Leads(mid, a, end, end) && k <= |r + a|
    ensures Within(ApplyAll(p, (r + a)[..k]), p) || Within(ApplyAll(p, (r + a)[..k]), end)
  {
    if k <= |r| {
      assert (r + a)[..k] == r[..k];
    } else {
      assert (r + a)[..k] == r + a[..k - |r|];
      ApplyAppend(p, r, a[..k - |r|]);
    }
  }

  /** Before the first addition nothing is held that was not held at the start, and from then on
      nothing that is not wanted at the end. */
  lemma PiecesStayWithin(current: Plan, desired: Plan, n: nat, k: nat)
    requires n >= 1 && ValidPlan(current) && ValidPlan(desired)
    requires k <= |SplitAll(Diff(current, desired), n)|
    ensures var p := ApplyAll(current, SplitAll(Diff(current, desired), n)[..k]);
            Within(p, current) || Within(p, desired)
  {
    RemovalsPhase(current, desired, n);
    AdditionsPhase(current, desired, n);
    SplitAllAppend(Removals(current, desired), Additions(current, desired), n);
    PrefixIsWithin(current, SplitAll(Removals(current, desired), n), Refilled(current, desired, []),
                   SplitAll(Additions(current, desired), n), desired, k);
  }

  lemma {:induction false} UnsplitWhenRoomy(cs: seq<Change>, n: nat)
    requires n >= 1 && forall i :: 0 <= i < |cs| ==> Size(cs[i]) <= n
    ensures SplitAll(cs, n) == cs
  {
    if cs != [] {
      var init, c := cs[..|cs| - 1], cs[|cs| - 1];
      UnsplitWhenRoomy(init, n);
      assert cs == init + [c];
      SplitSnoc(init, c, n);
    }
  }

  lemma {:induction false} Roomiest(cs: seq<Change>) returns (n: nat)
    ensures n >= 1 && forall i :: 0 <= i < |cs| ==> Size(cs[i]) <= n
  {
    if cs == [] { n := 1; } else {
      n := Roomiest(cs[..|cs| - 1]);
      if Size(cs[|cs| - 1]) > n { n := Size(cs[|cs| - 1]); }
    }
  }

  /** The same for the changes themselves. */
  lemma DiffIsSafe(current: Plan, desired: Plan, cap: nat, k: nat)
    requires ValidPlan(current) && ValidPlan(desired) && k <= |Diff(current, desired)|
    ensures ApplyAll(current, Diff(current, desired)) == desired
    ensures ValidPlan(ApplyAll(current, Diff(current, desired)[..k]))
    ensures Capped(current, cap) && Capped(desired, cap) ==> Capped(ApplyAll(current, Diff(current, desired)[..k]), cap)
  {
    var n := Roomiest(Diff(current, desired));
    UnsplitWhenRoomy(Diff(current, desired), n);
    PiecesAreSafe(current, desired, n, cap, k);
  }

  lemma {:induction false} NothingToChange(ids: seq<Key>, p: Plan)
    requires ValidPlan(p) && forall i :: 0 <= i < |ids| ==> ids[i] in p
    ensures DropMarkets(ids, p, p) == [] && DropGroups(ids, p, p) == []
    ensures AddGroups(ids, p, p) == [] && GrowGroups(ids, p, p) == []
  {
    if ids != [] {
      var id := ids[|ids| - 1];
      NothingToChange(ids[..|ids| - 1], p);
      assert p[id].tickers * p[id].tickers == p[id].tickers && p[id].tickers - p[id].tickers == {};
    }
  }

  /** `diff` finds nothing to change exactly between equal plans. */
  lemma DiffIsEmptyIff(current: Plan, desired: Plan)
    requires ValidPlan(current) && ValidPlan(desired)
    ensures Diff(current, desired) == [] <==> current == desired
  {
    if current == desired {
      var ids := Sorted(current.Keys);
      forall i | 0 <= i < |ids| ensures ids[i] in current { assert ids[i] in ids; }
      NothingToChange(ids, current);
    }
    DiffIsSafe(current, desired, 0, 0);
  }

  // ------------------------------------------------------------------ removals, then additions

  ghost predicate AllRemovals(cs: seq<Change>) {
    forall i :: 0 <= i < |cs| ==> cs[i].RemoveGroup? || cs[i].RemoveMarkets?
  }

  ghost predicate AllAdditions(cs: seq<Change>) {
    forall i :: 0 <= i < |cs| ==> cs[i].AddGroup? || cs[i].AddMarkets?
  }

  lemma {:induction false} DropsAreRemovals(ids: seq<Key>, current: Plan, desired: Plan)
    ensures AllRemovals(DropMarkets(ids, current, desired)) && AllRemovals(DropGroups(ids, current, desired))
  {
    if ids != [] { DropsAreRemovals(ids[..|ids| - 1], current, desired); }
  }

  lemma {:induction false} AddsAreAdditions(ids: seq<Key>, current: Plan, desired: Plan)
    ensures AllAdditions(AddGroups(ids, current, desired)) && AllAdditions(GrowGroups(ids, current, desired))
  {
    if ids != [] { AddsAreAdditions(ids[..|ids| - 1], current, desired); }
  }

  lemma SplitKeepsKind(c: Change, n: nat)
    requires n >= 1
    ensures c.RemoveGroup? || c.RemoveMarkets? ==> AllRemovals(Split(c, n))
    ensures c.AddGroup? || c.AddMarkets? ==> AllAdditions(Split(c, n))
  {
  }

  lemma {:induction false} SplitAllKeepsKind(cs: seq<Change>, n: nat)
    requires n >= 1
    ensures AllRemovals(cs) ==> AllRemovals(SplitAll(cs, n))
    ensures AllAdditions(cs) ==> AllAdditions(SplitAll(cs, n))
  {
    if cs != [] {
      var init, c := cs[..|cs| - 1], cs[|cs| - 1];
      SplitAllKeepsKind(init, n);
      SplitKeepsKind(c, n);
      assert cs == init + [c];
      SplitSnoc(init, c, n);
    }
  }

  /** `diff`'s pieces are removals followed by additions. */
  lemma PiecesInOrder(current: Plan, desired: Plan, n: nat)
    requires n >= 1
    ensures AllRemovals(SplitAll(Removals(current, desired), n))
            && AllAdditions(SplitAll(Additions(current, desired), n))
    ensures SplitAll(Diff(current, desired), n) ==
            SplitAll(Removals(current, desired), n) + SplitAll(Additions(current, desired), n)
  {
    DropsAreRemovals(Sorted(current.Keys), current, desired);
    AddsAreAdditions(Sorted(desired.Keys), current, desired);
    AddsAreAdditions(Sorted(current.Keys), current, desired);
    SplitAllKeepsKind(Removals(current, desired), n);
    SplitAllKeepsKind(Additions(current, desired), n);
    SplitAllAppend(Removals(current, desired), Additions(current, desired), n);
  }
}
