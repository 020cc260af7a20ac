/** Assigning markets to connections: `plan` of `src/tape/recorder/planner.py`. `members[c]` lists the
    markets of connection `c`; a connection without any is the one the plan has no group for. */
module Assignment {
  import opened Prelude

  /** One group of the running plan. */
  datatype Held = Held(conn: nat, tickers: set<Ticker>)

  datatype Slot = Slot(load: nat, conn: nat)

  type Members = seq<seq<Ticker>>

  ghost predicate ValidPrevious(previous: seq<Held>) {
    forall i, j :: 0 <= i < j < |previous| ==>
      (previous[i].conn != previous[j].conn && previous[i].tickers !! previous[j].tickers)
  }

  // ------------------------------------------------------------------ counting members

  ghost function Total(m: Members): nat {
    if m == [] then 0 else Total(m[..|m| - 1]) + |m[|m| - 1]|
  }

  ghost function Everyone(m: Members): set<Ticker> {
    if m == [] then {} else Everyone(m[..|m| - 1]) + Elems(m[|m| - 1])
  }

  /** Every market listed is listed once, on one connection. */
  ghost predicate EachOnce(m: Members) {
    |Everyone(m)| == Total(m)
  }

  ghost predicate AtMost(m: Members, cap: nat) {
    forall c :: 0 <= c < |m| ==> |m[c]| <= cap
  }

  lemma {:induction false} EveryoneListed(m: Members, t: Ticker)
    ensures t in Everyone(m) <==> exists c :: 0 <= c < |m| && t in m[c]
  {
    if m != [] {
      var init := m[..|m| - 1];
      EveryoneListed(init, t);
      if c :| 0 <= c < |m| && t in m[c] {
        assert c < |init| ==> init[c] == m[c];
      }
    }
  }

  lemma {:induction false} AddMember(m: Members, c: nat, t: Ticker)
    requires c < |m|
    ensures Total(m[c := m[c] + [t]]) == Total(m) + 1
    ensures Everyone(m[c := m[c] + [t]]) == Everyone(m) + {t}
  {
    var n := m[c := m[c] + [t]];
    var init := m[..|m| - 1];
    if c == |m| - 1 {
      assert n[..|n| - 1] == init;
      assert Elems(m[c] + [t]) == Elems(m[c]) + {t};
    } else {
      AddMember(init, c, t);
      assert n[..|n| - 1] == init[c := init[c] + [t]];
    }
  }

  lemma {:induction false} TotalBounds(m: Members, cap: nat)
    ensures AtMost(m, cap) ==> Total(m) <= cap * |m|
    ensures (forall c :: 0 <= c < |m| ==> |m[c]| == cap) ==> Total(m) == cap * |m|
  {
    if m != [] {
      TotalBounds(m[..|m| - 1], cap);
      assert cap * |m| == cap * (|m| - 1) + cap;
    }
  }

  // ------------------------------------------------------------------ keeping what may stay

  function Empty(n: nat): (m: Members)
    ensures |m| == n && forall c :: 0 <= c < n ==> m[c] == []
  {
    seq(n, _ => [])
  }

  lemma {:induction false} EmptyHasNone(n: nat)
    ensures Total(Empty(n)) == 0 && Everyone(Empty(n)) == {}
  {
    if n > 0 {
      EmptyHasNone(n - 1);
      assert Empty(n)[..n - 1] == Empty(n - 1);
    }
  }

  /** The members a running group keeps: those still wanted, the first `cap` of them by ticker. */
  ghost function Stay(held: Held, desired: set<Ticker>, cap: nat): seq<Ticker> {
    var wanted := Sorted(held.tickers * desired);
    if |wanted| <= cap then wanted else wanted[..cap]
  }

  lemma StayIsPart(held: Held, desired: set<Ticker>, cap: nat)
    ensures |Stay(held, desired, cap)| <= cap
    ensures Elems(Stay(held, desired, cap)) <= held.tickers * desired
    ensures |Elems(Stay(held, desired, cap))| == |Stay(held, desired, cap)|
    ensures |held.tickers * desired| <= cap ==> Elems(Stay(held, desired, cap)) == held.tickers * desired
  {
    var wanted, kept := Sorted(held.tickers * desired), Stay(held, desired, cap);
    assert forall i :: 0 <= i < |kept| ==> kept[i] == wanted[i] && wanted[i] in wanted;
    DistinctCount(kept);
  }

  lemma {:induction false} PlaceGroup(m: Members, c: nat, ts: seq<Ticker>)
    requires c < |m| && m[c] == []
    ensures Total(m[c := ts]) == Total(m) + |ts|
    ensures Everyone(m[c := ts]) == Everyone(m) + Elems(ts)
  {
    var n := m[c := ts];
    var init := m[..|m| - 1];
    if c == |m| - 1 {
      assert n[..|n| - 1] == init;
    } else {
      PlaceGroup(init, c, ts);
      assert n[..|n| - 1] == init[c := ts];
    }
  }

  ghost predicate Carried(m: Members, previous: seq<Held>, desired: set<Ticker>, cap: nat, k: nat)
    requires k <= |previous|
  {
    && (forall i :: 0 <= i < k && previous[i].conn < |m| ==> m[previous[i].conn] == Stay(previous[i], desired, cap))
    && (forall c :: 0 <= c < |m| && (forall i :: 0 <= i < k ==> previous[i].conn != c) ==> m[c] == [])
  }

  ghost predicate CarriedWell(m: Members, previous: seq<Held>, desired: set<Ticker>, cap: nat, k: nat)
    requires k <= |previous|
  {
    && Carried(m, previous, desired, cap, k)
    && AtMost(m, cap) && EachOnce(m) && Everyone(m) <= desired
    && forall i :: k <= i < |previous| ==> previous[i].tickers !! Everyone(m)
  }

  lemma CarriedNext(m: Members, previous: seq<Held>, desired: set<Ticker>, cap: nat, k: nat)
    requires ValidPrevious(previous) && k < |previous| && Carried(m, previous, desired, cap, k)
    ensures var held := previous[k];
            Carried(if held.conn < |m| then m[held.conn := Stay(held, desired, cap)] else
                m, previous, desired, cap, k + 1)
    ensures previous[k].conn < |m| ==> m[previous[k].conn] == []
  {
  }

  lemma OthersStayDisjoint(previous: seq<Held>, k: nat, kept: set<Ticker>, before: set<Ticker>)
    requires ValidPrevious(previous) && k < |previous| && kept <= previous[k].tickers
    requires forall i :: k <= i < |previous| ==> previous[i].tickers !! before
    ensures kept !! before && forall i :: k < i < |previous| ==> previous[i].tickers !! before + kept
  {
    forall i | k < i < |previous| ensures previous[i].tickers !! before + kept {
      assert previous[k].tickers !! previous[i].tickers;
    }
  }

  lemma CarryNext(m: Members, previous: seq<Held>, desired: set<Ticker>, cap: nat, k: nat)
    requires ValidPrevious(previous) && k < |previous| && CarriedWell(m, previous, desired, cap, k)
    ensures var held := previous[k];
            CarriedWell(if held.conn < |m| then m[held.conn := Stay(held, desired, cap)] else
                m, previous, desired, cap, k + 1)
  {
    var held := previous[k];
    CarriedNext(m, previous, desired, cap, k);
    if held.conn < |m| {
      var kept := Stay(held, desired, cap);
      StayIsPart(held, desired, cap);
      PlaceGroup(m, held.conn, kept);
      OthersStayDisjoint(previous, k, Elems(kept), Everyone(m));
    }
  }

  /** `_carry_over`. */
  method CarryOver(previous: seq<Held>, desired: set<Ticker>, cap: nat, maxConnections: nat) returns (m: Members)
    requires ValidPrevious(previous)
    ensures |m| == maxConnections && CarriedWell(m, previous, desired, cap, |previous|)
  {
    m := Empty(maxConnections);
    EmptyHasNone(maxConnections);
    for k := 0 to |previous|
      invariant |m| == maxConnections && CarriedWell(m, previous, desired, cap, k)
    {
      CarryNext(m, previous, desired, cap, k);
      var held := previous[k];
      if held.conn < maxConnections {
        var kept := SortKeys(held.tickers * desired);
        if |kept| > cap { kept := kept[..cap]; }
        m := m[held.conn := kept];
      }
    }
  }

  // ------------------------------------------------------------------ dealing out the rest

  predicate Before(a: Slot, b: Slot) {
    a.load < b.load || (a.load == b.load && a.conn <= b.conn)
  }

  /** `heapq.heappop`: the slot with the fewest members, the lowest connection on a tie. */
  method PopLeast(room: set<Slot>) returns (s: Slot)
    requires room != {}
    ensures s in room && forall x :: x in room ==> Before(s, x)
  {
    s :| s in room;
    var left := room - {s};
    while left != {}
      invariant left <= room && s in room
      invariant forall x :: x in room - left ==> Before(s, x)
      decreases |left|
    {
      var x :| x in left;
      assert forall y :: y in room - (left - {x}) <==> y in room - left || y == x;
      if !Before(s, x) { s := x; }
      left := left - {x};
    }
  }

  ghost predicate RoomOf(room: set<Slot>, m: Members, cap: nat) {
    forall s :: s in room <==> s.conn < |m| && s.load == |m[s.conn]| && s.load < cap
  }

  method Rooms(m: Members, cap: nat) returns (room: set<Slot>)
    ensures RoomOf(room, m, cap)
  {
    room := {};
    for c := 0 to |m|
      invariant forall s :: s in room <==> s.conn < c && s.load == |m[s.conn]| && s.load < cap
    {
      if |m[c]| < cap { room := room + {Slot(|m[c]|, c)}; }
    }
  }

  /** A connection that received a market ends with at most one more than any other. */
  ghost predicate Balanced(start: Members, m: Members)
    requires |start| == |m|
  {
    forall c, d :: 0 <= c < |m| && 0 <= d < |m| && |m[c]| > |start[c]| ==> |m[c]| <= |m[d]| + 1
  }

  ghost predicate Extends(start: Members, m: Members) {
    |start| == |m| && forall c :: 0 <= c < |m| ==> start[c] <= m[c]
  }

  /** Connection `c` takes the market: it has the fewest members of all, no lower connection has as few, and it has
      room. */
  ghost predicate Takes(m: Members, n: Members, t: Ticker, cap: nat, c: nat) {
    && c < |m| && |m[c]| < cap && n == m[c := m[c] + [t]]
    && forall d :: 0 <= d < |m| ==> |m[c]| < |m[d]| || (|m[c]| == |m[d]| && c <= d)
  }

  ghost predicate DealtOne(m: Members, n: Members, t: Ticker, cap: nat) {
    exists c: nat :: Takes(m, n, t, cap, c)
  }

  /** The markets were dealt out in their order. */
  ghost predicate DealtAll(start: Members, ts: seq<Ticker>, m: Members, cap: nat) {
    if ts == [] then m == start else
      var init, last := ts[..|ts| - 1], ts[|ts| - 1];
      exists before: Members :: DealtAll(start, init, before, cap) && DealtOne(before, m, last, cap)
  }

  lemma DealtAllNext(start: Members, ts: seq<Ticker>, k: nat, m: Members, n: Members, cap: nat)
    requires k < |ts| && DealtAll(start, ts[..k], m, cap) && DealtOne(m, n, ts[k], cap)
    ensures DealtAll(start, ts[..k + 1], n, cap)
  {
    assert ts[..k + 1][..k] == ts[..k];
  }

  lemma {:induction false} DealingIsUnique(start: Members, ts: seq<Ticker>, m: Members, n: Members, cap: nat)
    requires DealtAll(start, ts, m, cap) && DealtAll(start, ts, n, cap)
    ensures m == n
  {
    if ts != [] {
      var init := ts[..|ts| - 1];
      var a: Members :| DealtAll(start, init, a, cap) && DealtOne(a, m, ts[|ts| - 1], cap);
      var b: Members :| DealtAll(start, init, b, cap) && DealtOne(b, n, ts[|ts| - 1], cap);
      DealingIsUnique(start, init, a, b, cap);
    }
  }

  /** One turn of `_fill`: the least loaded connection with room takes the market. */
  method Deal(start: Members, m: Members, room: set<Slot>, t: Ticker, cap: nat) returns (n: Members, left: set<Slot>)
    requires Extends(start, m) && AtMost(m, cap) && Balanced(start, m) && RoomOf(room, m, cap) && room != {}
    ensures Extends(start, n) && AtMost(n, cap) && Balanced(start, n) && RoomOf(left, n, cap)
    ensures Total(n) == Total(m) + 1 && Everyone(n) == Everyone(m) + {t}
    ensures DealtOne(m, n, t, cap)
  {
    var slot := PopLeast(room);
    forall c | 0 <= c < |m| && |m[c]| < cap ensures Before(slot, Slot(|m[c]|, c)) {
      assert Slot(|m[c]|, c) in room;
    }
    assert Takes(m, m[slot.conn := m[slot.conn] + [t]], t, cap, slot.conn);
    AddMember(m, slot.conn, t);
    DealtIsBalanced(start, m, slot, cap, t);
    n := m[slot.conn := m[slot.conn] + [t]];
    left := room - {slot};
    if slot.load + 1 < cap { left := left + {Slot(slot.load + 1, slot.conn)}; }
  }

  ghost predicate Dealt(start: Members, m: Members, unplaced: seq<Ticker>, k: nat, cap: nat)
    requires k <= |unplaced|
  {
    && Extends(start, m) && AtMost(m, cap) && Balanced(start, m) && EachOnce(m)
    && Everyone(m) == Everyone(start) + Elems(unplaced[..k]) && Total(m) == Total(start) + k
  }

  lemma DealtNext(start: Members, m: Members, n: Members, unplaced: seq<Ticker>, k: nat, cap: nat)
    requires Ascending(unplaced) && k < |unplaced| && unplaced[k] !in Everyone(start)
    requires Dealt(start, m, unplaced, k, cap)
    requires Extends(start, n) && AtMost(n, cap) && Balanced(start, n)
    requires Total(n) == Total(m) + 1 && Everyone(n) == Everyone(m) + {unplaced[k]}
    ensures Dealt(start, n, unplaced, k + 1, cap)
  {
    OneMore(unplaced, k);
    assert unplaced[k] !in Everyone(m);
  }

  /** `_fill`: each market in order to the least loaded connection with room. */
  method Fill(start: Members, unplaced: seq<Ticker>, cap: nat) returns (m: Members, ghost placed: nat)
    requires AtMost(start, cap) && EachOnce(start) && Ascending(unplaced)
    requires forall i :: 0 <= i < |unplaced| ==> unplaced[i] !in Everyone(start)
    ensures placed <= |unplaced| && Dealt(start, m, unplaced, placed, cap)
    ensures DealtAll(start, unplaced[..placed], m, cap)
    ensures placed < |unplaced| ==> forall c :: 0 <= c < |m| ==> |m[c]| == cap
  {
    m, placed := start, 0;
    assert Elems(unplaced[..0]) == {};
    var room := Rooms(m, cap);
    for k := 0 to |unplaced|
      invariant placed == k && Dealt(start, m, unplaced, k, cap) && RoomOf(room, m, cap)
      invariant DealtAll(start, unplaced[..k], m, cap)
    {
      if room == {} {
        NoRoomLeft(room, m, cap);
        return;
      }
      ghost var before := m;
      m, room := Deal(start, m, room, unplaced[k], cap);
      DealtNext(start, before, m, unplaced, k, cap);
      DealtAllNext(start, unplaced, k, before, m, cap);
      placed := k + 1;
    }
  }

  lemma NoRoomLeft(room: set<Slot>, m: Members, cap: nat)
    requires RoomOf(room, m, cap) && AtMost(m, cap) && room == {}
    ensures forall c :: 0 <= c < |m| ==> |m[c]| == cap
  {
    forall c | 0 <= c < |m| ensures |m[c]| == cap {
      assert Slot(|m[c]|, c) !in room;
    }
  }

  lemma OneMore(ts: seq<Ticker>, k: nat)
    requires Ascending(ts) && k < |ts|
    ensures Elems(ts[..k + 1]) == Elems(ts[..k]) + {ts[k]} && ts[k] !in Elems(ts[..k])
  {
    assert ts[..k + 1] == ts[..k] + [ts[k]];
  }

  lemma DealtIsBalanced(start: Members, m: Members, slot: Slot, cap: nat, t: Ticker)
    requires Extends(start, m) && AtMost(m, cap) && Balanced(start, m)
    requires slot.conn < |m| && slot.load == |m[slot.conn]| && slot.load < cap
    requires forall c :: 0 <= c < |m| && |m[c]| < cap ==> slot.load <= |m[c]|
    ensures var n := m[slot.conn := m[slot.conn] + [t]]; Extends(start, n) && AtMost(n, cap) && Balanced(start, n)
  {
  }

  // ------------------------------------------------------------------ the whole plan

  /** A market may stay that is still wanted and has fewer than `cap` others of its connection before it. */
  ghost predicate MayStay(held: Held, desired: set<Ticker>, cap: nat, t: Ticker) {
    && t in held.tickers && t in desired
    && |set u | u in held.tickers && u in desired && u.rank < t.rank| < cap
  }

  lemma {:induction false} RanksBelow(ts: seq<Ticker>, i: nat)
    requires Ascending(ts) && i < |ts|
    ensures |set u | u in ts && u.rank < ts[i].rank| == i
  {
    assert (set u | u in ts && u.rank < ts[i].rank) == Elems(ts[..i]);
    DistinctCount(ts[..i]);
  }

  /** Those are the ones that do. */
  lemma StayMeans(held: Held, desired: set<Ticker>, cap: nat, t: Ticker)
    ensures t in Stay(held, desired, cap) <==> MayStay(held, desired, cap, t)
  {
    var wanted := Sorted(held.tickers * desired);
    if t in wanted {
      var i: nat :| i < |wanted| && wanted[i] == t;
      RanksBelow(wanted, i);
      assert (set u | u in wanted && u.rank < t.rank) ==
             (set u | u in held.tickers && u in desired && u.rank < t.rank);
      if i < Min(cap, |wanted|) { assert Stay(held, desired, cap)[i] == t; }
    }
  }

  ghost predicate Kept(m: Members, previous: seq<Held>, desired: set<Ticker>, cap: nat) {
    forall i, t ::
        0 <= i < |previous| && previous[i].conn < |m| && MayStay(previous[i], desired, cap, t) ==>
        t in m[previous[i].conn]
  }

  /** What `plan` makes: the members that may stay, then the other wanted markets in ticker order, each to the least
      loaded connection; the last ones are left out when every connection is full. */
  ghost predicate IsPlan(m: Members, start: Members, desired: set<Ticker>, cap: nat, k: nat, previous: seq<Held>) {
    && |start| == |m| && Carried(start, previous, desired, cap, |previous|)
    && k <= |Sorted(desired - Everyone(start))|
    && DealtAll(start, Sorted(desired - Everyone(start))[..k], m, cap)
    && (k < |Sorted(desired - Everyone(start))| ==> forall c :: 0 <= c < |m| ==> |m[c]| == cap)
  }

  ghost predicate Planned(m: Members, desired: set<Ticker>, cap: nat, previous: seq<Held>) {
    exists start: Members, k: nat :: IsPlan(m, start, desired, cap, k, previous)
  }

  /** Equal inputs give equal plans. */
  lemma PlanIsUnique(m: Members, n: Members, desired: set<Ticker>, cap: nat, previous: seq<Held>)
    requires |m| == |n| && ValidPrevious(previous) && Planned(m, desired, cap, previous)
             && Planned(n, desired, cap, previous)
    ensures m == n
  {
    var a: Members, j: nat :| IsPlan(m, a, desired, cap, j, previous);
    var b: Members, k: nat :| IsPlan(n, b, desired, cap, k, previous);
    CarriedIsUnique(a, b, previous, desired, cap);
    var rest := Sorted(desired - Everyone(a));
    CarriedIsCapped(a, previous, desired, cap);
    DealtTotals(a, rest[..j], m, cap);
    DealtTotals(a, rest[..k], n, cap);
    SameNumber(Total(a), m, n, j, k, |rest|, cap);
    DealingIsUnique(a, rest[..j], m, n, cap);
  }

  lemma CarriedIsCapped(a: Members, previous: seq<Held>, desired: set<Ticker>, cap: nat)
    requires Carried(a, previous, desired, cap, |previous|)
    ensures AtMost(a, cap)
  {
    forall c | 0 <= c < |a| ensures |a[c]| <= cap {
      if i :| 0 <= i < |previous| && previous[i].conn == c { StayIsPart(previous[i], desired, cap); }
    }
  }

  lemma SameNumber(before: nat, m: Members, n: Members, j: nat, k: nat, all: nat, cap: nat)
    requires |m| == |n| && AtMost(m, cap) && AtMost(n, cap) && j <= all && k <= all
    requires Total(m) == before + j && Total(n) == before + k
    requires j < all ==> forall c :: 0 <= c < |m| ==> |m[c]| == cap
    requires k < all ==> forall c :: 0 <= c < |n| ==> |n[c]| == cap
    ensures j == k
  {
    TotalBounds(m, cap);
    TotalBounds(n, cap);
  }

  /** Markets are left out from the end of ticker order: every market that was dealt comes before each of them. */
  lemma LeftOutComeLast(m: Members, start: Members, desired: set<Ticker>, cap: nat, k: nat, previous: seq<Held>,
                        t: Ticker, u: Ticker)
    requires IsPlan(m, start, desired, cap, k, previous)
    requires t in Everyone(m) && t !in Everyone(start) && u in desired && u !in Everyone(m)
    ensures t.rank < u.rank
  {
    var rest := Sorted(desired - Everyone(start));
    DealtEveryone(start, rest[..k], m, cap);
    assert u in rest;
    var i: nat :| i < k && rest[i] == t;
    var j: nat :| j < |rest| && rest[j] == u;
    assert forall i: nat :: i < k ==> rest[i] in rest[..k];
  }

  lemma {:induction false} DealtEveryone(start: Members, ts: seq<Ticker>, m: Members, cap: nat)
    requires DealtAll(start, ts, m, cap)
    ensures Everyone(m) == Everyone(start) + Elems(ts)
  {
    if ts != [] {
      var init, t := ts[..|ts| - 1], ts[|ts| - 1];
      var before: Members :| DealtAll(start, init, before, cap) && DealtOne(before, m, t, cap);
      var c: nat :| Takes(before, m, t, cap, c);
      DealtEveryone(start, init, before, cap);
      AddMember(before, c, t);
      assert ts == init + [t];
    }
  }

  lemma CarriedIsUnique(a: Members, b: Members, previous: seq<Held>, desired: set<Ticker>, cap: nat)
    requires |a| == |b| && Carried(a, previous, desired, cap, |previous|)
             && Carried(b, previous, desired, cap, |previous|)
    ensures a == b
  {
    forall c | 0 <= c < |a| ensures a[c] == b[c] {
      if i :| 0 <= i < |previous| && previous[i].conn == c { }
    }
  }

  lemma {:induction false} DealtTotals(start: Members, ts: seq<Ticker>, m: Members, cap: nat)
    requires DealtAll(start, ts, m, cap)
    ensures |m| == |start| && Total(m) == Total(start) + |ts| && (AtMost(start, cap) ==> AtMost(m, cap))
  {
    if ts != [] {
      var init := ts[..|ts| - 1];
      var before: Members :| DealtAll(start, init, before, cap) && DealtOne(before, m, ts[|ts| - 1], cap);
      var c: nat :| Takes(before, m, ts[|ts| - 1], cap, c);
      DealtTotals(start, init, before, cap);
      AddMember(before, c, ts[|ts| - 1]);
    }
  }

  method Plan(desired: set<Ticker>, cap: nat, maxConnections: nat, previous: seq<Held>) returns (m: Members)
    requires cap >= 1 && maxConnections >= 1 && ValidPrevious(previous)
    ensures |m| == maxConnections && AtMost(m, cap) && EachOnce(m) && Everyone(m) <= desired
    ensures Total(m) == Min(|desired|, cap * maxConnections)
    ensures Kept(m, previous, desired, cap)
    ensures Planned(m, desired, cap, previous)
    ensures exists start: Members ::
            Carried(start, previous, desired, cap, |previous|) && Extends(start, m) && Balanced(start, m)
    ensures previous == [] ==> forall c, d :: 0 <= c < |m| && 0 <= d < |m| ==> |m[c]| <= |m[d]| + 1
  {
    var start := CarryOver(previous, desired, cap, maxConnections);
    var placed := Placed(start);
    var unplaced := SortKeys(desired - placed);
    forall i | 0 <= i < |unplaced| ensures unplaced[i] !in Everyone(start) {
      assert unplaced[i] in unplaced;
    }
    ghost var dealt;
    m, dealt := Fill(start, unplaced, cap);
    PlanCovers(desired, start, unplaced, dealt, m, cap);
    CarriedIsKept(start, previous, desired, cap, m);
    assert IsPlan(m, start, desired, cap, dealt, previous);
  }

  method Placed(m: Members) returns (s: set<Ticker>)
    ensures s == Everyone(m)
  {
    s := {};
    for c := 0 to |m|
      invariant s == Everyone(m[..c])
    {
      assert m[..c + 1][..c] == m[..c];
      s := s + Elems(m[c]);
    }
    assert m[..|m|] == m;
  }

  lemma PlanCovers(desired: set<Ticker>, start: Members, unplaced: seq<Ticker>, dealt: nat, m: Members, cap: nat)
    requires Everyone(start) <= desired && EachOnce(start)
    requires IsSorting(unplaced, desired - Everyone(start)) && dealt <= |unplaced|
    requires Everyone(m) == Everyone(start) + Elems(unplaced[..dealt]) && Total(m) == Total(start) + dealt
             && AtMost(m, cap)
    requires dealt < |unplaced| ==> forall c :: 0 <= c < |m| ==> |m[c]| == cap
    ensures Everyone(m) <= desired && Total(m) == Min(|desired|, cap * |m|)
  {
    TotalBounds(m, cap);
    assert desired == Everyone(start) + (desired - Everyone(start));
    assert |desired| == Total(start) + |unplaced|;
    assert forall t :: t in unplaced[..dealt] ==> t in unplaced;
  }

  lemma CarriedIsKept(start: Members, previous: seq<Held>, desired: set<Ticker>, cap: nat, m: Members)
    requires Carried(start, previous, desired, cap, |previous|) && Extends(start, m)
    ensures Kept(m, previous, desired, cap)
  {
    forall i, t | 0 <= i < |previous| && previous[i].conn < |m| && MayStay(previous[i], desired, cap, t)
      ensures t in m[previous[i].conn]
    {
      StayMeans(previous[i], desired, cap, t);
      assert start[previous[i].conn] <= m[previous[i].conn];
    }
  }
}
