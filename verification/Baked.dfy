/** From the records of an hour through the tables to the books: `src/tape/bake/interpret.py` and
    `src/tape/store/catalog.py` together. */
module Baked {
  import opened Prelude
  import opened Interpret
  import OrderBook
  import Replay

  // ------------------------------------------------------------------ baked and replayed

  /** The changes a segment's records are, in the order of the tape: a gap behind the frame that revealed it. */
  function EventsOf(recs: seq<Record>): seq<Replay.Event> {
    if recs == [] then [] else
      var r := recs[|recs| - 1];
      EventsOf(recs[..|recs| - 1]) +
      (match r.content
       case Delta(_, _, _, _, _, _) => [DeltaEvent(r)]
       case Snapshot(_, _, _, _, _) => [SnapshotEvent(r)]
       case Gap(_, _, _) => [GapEvent(r)]
       case _ => [])
  }

  function DeltaTable(es: seq<Emitted>): seq<Replay.Event> {
    if es == [] then [] else
        DeltaTable(es[..|es| - 1]) + (if es[|es| - 1].row.DeltaRow? then [es[|es| - 1].row.event] else [])
  }

  function SnapshotTable(es: seq<Emitted>): seq<Replay.Row> {
    if es == [] then [] else
        SnapshotTable(es[..|es| - 1]) + (if es[|es| - 1].row.SnapshotRow? then [es[|es| - 1].row.row] else [])
  }

  function GapTable(es: seq<Emitted>): seq<Replay.Event> {
    if es == [] then [] else
        GapTable(es[..|es| - 1]) + (if es[|es| - 1].row.GapRow? then [es[|es| - 1].row.event] else [])
  }

  lemma {:induction false} TablesJoin(a: seq<Emitted>, b: seq<Emitted>)
    ensures DeltaTable(a + b) == DeltaTable(a) + DeltaTable(b)
    ensures SnapshotTable(a + b) == SnapshotTable(a) + SnapshotTable(b)
    ensures GapTable(a + b) == GapTable(a) + GapTable(b)
  {
    if b == [] {
      assert a + b == a;
    } else {
      TablesJoin(a, b[..|b| - 1]);
      assert (a + b)[..|a + b| - 1] == a + b[..|b| - 1];
    }
  }

  lemma {:induction false} StampedTables(place: Place, rows: seq<Replay.Row>, reason: Reason)
    ensures var es := Stamped(place, rows, reason);
            DeltaTable(es) == [] && SnapshotTable(es) == rows && GapTable(es) == []
  {
    if rows != [] {
      var init := Stamped(place, rows[..|rows| - 1], reason);
      StampedTables(place, rows[..|rows| - 1], reason);
      var last := Emitted(place, SnapshotRow(rows[|rows| - 1], reason));
      assert (init + [last])[..|init|] == init;
      assert rows[..|rows| - 1] + [rows[|rows| - 1]] == rows;
    }
  }

  lemma OneTable(e: Emitted)
    ensures DeltaTable([e]) == if e.row.DeltaRow? then [e.row.event] else []
    ensures SnapshotTable([e]) == if e.row.SnapshotRow? then [e.row.row] else []
    ensures GapTable([e]) == if e.row.GapRow? then [e.row.event] else []
  {
    assert [e][..0] == [];
  }

  ghost function Times(es: seq<Replay.Event>, e: Replay.Event): nat {
    if es == [] then 0 else Times(es[..|es| - 1], e) + (if es[|es| - 1] == e then 1 else 0)
  }

  lemma {:induction false} TimesJoin(a: seq<Replay.Event>, b: seq<Replay.Event>, e: Replay.Event)
    ensures Times(a + b, e) == Times(a, e) + Times(b, e)
  {
    if b == [] {
      assert a + b == a;
    } else {
      TimesJoin(a, b[..|b| - 1], e);
      assert (a + b)[..|a + b| - 1] == a + b[..|b| - 1];
    }
  }

  lemma {:induction false} TimesIsCount(es: seq<Replay.Event>, e: Replay.Event)
    ensures multiset(es)[e] == Times(es, e)
  {
    if es != [] {
      TimesIsCount(es[..|es| - 1], e);
      assert es == es[..|es| - 1] + [es[|es| - 1]];
    }
  }

  ghost function TimesPending(ps: seq<Pending>, e: Replay.Event): nat {
    if ps == [] then 0 else TimesPending(ps[..|ps| - 1], e) + (if ps[|ps| - 1].event == e then 1 else 0)
  }

  lemma PendingSnoc(ps: seq<Pending>, p: Pending, e: Replay.Event)
    ensures TimesPending(ps + [p], e) == TimesPending(ps, e) + (if p.event == e then 1 else 0)
  {
    assert (ps + [p])[..|ps|] == ps;
  }

  /** How often an event is in the gaps table so far or waits to be. */
  lemma {:induction false} ResolvedTables(name: Key, ps: seq<Pending>, sid: Key, t: Ticker, wall: int, e: Replay.Event)
    ensures Times(GapTable(Resolved(name, ps, sid, t, wall)), e) + TimesPending(StillPending(ps, sid, t), e) ==
            TimesPending(ps, e)
  {
    if ps != [] {
      var init, p := ps[..|ps| - 1], ps[|ps| - 1];
      ResolvedTables(name, init, sid, t, wall, e);
      FreedTables(name, Resolved(name, init, sid, t, wall), StillPending(init, sid, t), p, sid, t, wall, e);
    }
  }

  lemma FreedTables(
      name: Key, es: seq<Emitted>, kept: seq<Pending>, p: Pending, sid: Key, t: Ticker, wall: int, e: Replay.Event)
    ensures Times(GapTable(es + Freed(name, p, sid, t, wall)), e) + TimesPending(kept + Left(p, sid, t), e)
            == Times(GapTable(es), e) + TimesPending(kept, e) + (if p.event == e then 1 else 0)
  {
    if Freed(name, p, sid, t, wall) != [] {
      var row := GapRowOf(name, p, Some(wall));
      TablesJoin(es, [row]);
      OneTable(row);
      TimesJoin(GapTable(es), [p.event], e);
      OneTime(p.event, e);
      assert kept + [] == kept;
    } else {
      PendingSnoc(kept, Left(p, sid, t)[0], e);
      assert es + [] == es;
    }
  }

  lemma OneTime(x: Replay.Event, e: Replay.Event)
    ensures Times([x], e) == if x == e then 1 else 0
  {
    assert [x][..0] == [];
  }

  lemma {:induction false} OnlyGaps(name: Key, ps: seq<Pending>, sid: Key, t: Ticker, wall: int)
    ensures var es := Resolved(name, ps, sid, t, wall); DeltaTable(es) == [] && SnapshotTable(es) == []
  {
    if ps != [] {
      var init, p := ps[..|ps| - 1], ps[|ps| - 1];
      OnlyGaps(name, init, sid, t, wall);
      TablesJoin(Resolved(name, init, sid, t, wall), Freed(name, p, sid, t, wall));
      OneTable(GapRowOf(name, p, Some(wall)));
    }
  }

  lemma {:induction false} UnresolvedTables(name: Key, ps: seq<Pending>, e: Replay.Event)
    ensures var es := Unresolved(name, ps);
            DeltaTable(es) == [] && SnapshotTable(es) == [] && Times(GapTable(es), e) == TimesPending(ps, e)
  {
    if ps != [] {
      var init, p := ps[..|ps| - 1], ps[|ps| - 1];
      UnresolvedTables(name, init, e);
      TablesJoin(Unresolved(name, init), [GapRowOf(name, p, None)]);
      OneTable(GapRowOf(name, p, None));
      TimesJoin(GapTable(Unresolved(name, init)), [p.event], e);
      OneTime(p.event, e);
    }
  }

  /** The tables a record's own rows go to. */
  lemma OwnTables(place: Place, r: Record, reason: Reason, staled: set<Ticker>)
    ensures var es := OwnRows(place, r, reason, staled);
            && DeltaTable(es) == (if r.content.Delta? then [DeltaEvent(r)] else [])
            && SnapshotTable(es) == (if r.content.Snapshot? then Replay.RowsOf(SnapshotEvent(r)) else [])
            && GapTable(es) == (if r.content.Gap? && staled == {} then [GapEvent(r)] else [])
  {
    if r.content.Snapshot? {
      StampedTables(place, Replay.RowsOf(SnapshotEvent(r)), reason);
    } else if OwnRows(place, r, reason, staled) != [] {
      OneTable(OwnRows(place, r, reason, staled)[0]);
    }
  }

  lemma EmittedTables(s: Start, before: seq<Record>, r: Record)
    ensures var es := Emits(s, before, r);
            && DeltaTable(es) == (if r.content.Delta? then [DeltaEvent(r)] else [])
            && SnapshotTable(es) == (if r.content.Snapshot? then Replay.RowsOf(SnapshotEvent(r)) else [])
  {
    var own := OwnRows(Place(s.name, |before|), r, ReasonOf(s, before, r), StaledBy(before, r));
    OwnTables(Place(s.name, |before|), r, ReasonOf(s, before, r), StaledBy(before, r));
    TablesJoin(own, ResolvedBy(s, PendingAfter(before), r));
    if r.content.Snapshot? { OnlyGaps(s.name, PendingAfter(before), r.content.sid, r.content.ticker, r.wall); }
  }

  lemma GapCounts(place: Place, ps: seq<Pending>, staled: set<Ticker>, index: nat, r: Record, e: Replay.Event)
    requires r.content.Gap?
    ensures Times(GapTable(OwnRows(place, r, Initial, staled)), e) + TimesPending(PendingNext(ps, staled, index, r), e)
            == TimesPending(ps, e) + (if GapEvent(r) == e then 1 else 0)
  {
    OwnTables(place, r, Initial, staled);
    OneTime(GapEvent(r), e);
    PendingSnoc(ps, Pending(index, GapEvent(r), r.content.expected, r.content.sid, staled), e);
  }

  lemma EmittedGaps(s: Start, before: seq<Record>, r: Record, e: Replay.Event)
    ensures Times(GapTable(Emits(s, before, r)), e)
            + TimesPending(PendingNext(PendingAfter(before), StaledBy(before, r), |before|, r), e)
            == TimesPending(PendingAfter(before), e) + (if r.content.Gap? && GapEvent(r) == e then 1 else 0)
  {
    var place, ps, staled, reason := Place(s.name, |before|), PendingAfter(before), StaledBy(before, r),
        ReasonOf(s, before, r);
    TablesJoin(OwnRows(place, r, reason, staled), ResolvedBy(s, ps, r));
    TimesJoin(GapTable(OwnRows(place, r, reason, staled)), GapTable(ResolvedBy(s, ps, r)), e);
    if r.content.Gap? {
      GapCounts(place, ps, staled, |before|, r, e);
    } else {
      OwnTables(place, r, reason, staled);
      if r.content.Snapshot? { ResolvedTables(s.name, ps, r.content.sid, r.content.ticker, r.wall, e); }
    }
  }

  lemma NextEvents(recs: seq<Record>)
    requires recs != []
    ensures var init, r := recs[..|recs| - 1], recs[|recs| - 1];
            && Replay.Deltas(EventsOf(recs)) ==
                 Replay.Deltas(EventsOf(init)) + (if r.content.Delta? then [DeltaEvent(r)] else [])
            && Replay.SnapshotRows(EventsOf(recs)) ==
                 Replay.SnapshotRows(EventsOf(init))
                 + (if r.content.Snapshot? then Replay.RowsOf(SnapshotEvent(r)) else [])
            && Replay.Gaps(EventsOf(recs)) ==
                 Replay.Gaps(EventsOf(init)) + (if r.content.Gap? then [GapEvent(r)] else [])
  {
    var all, before := EventsOf(recs), EventsOf(recs[..|recs| - 1]);
    assert all != before ==> all[..|all| - 1] == before;
  }

  lemma {:induction false} TablesSoFar(s: Start, recs: seq<Record>, e: Replay.Event)
    ensures DeltaTable(RowsAfter(s, recs)) == Replay.Deltas(EventsOf(recs))
    ensures SnapshotTable(RowsAfter(s, recs)) == Replay.SnapshotRows(EventsOf(recs))
    ensures Times(GapTable(RowsAfter(s, recs)), e) + TimesPending(PendingAfter(recs), e) ==
            Times(Replay.Gaps(EventsOf(recs)), e)
  {
    if recs != [] {
      var init, r := recs[..|recs| - 1], recs[|recs| - 1];
      TablesSoFar(s, init, e);
      NextEvents(recs);
      EmittedTables(s, init, r);
      EmittedGaps(s, init, r, e);
      TablesJoin(RowsAfter(s, init), Emits(s, init, r));
      TimesJoin(GapTable(RowsAfter(s, init)), GapTable(Emits(s, init, r)), e);
      TimesJoin(Replay.Gaps(EventsOf(init)), if r.content.Gap? then [GapEvent(r)] else [], e);
      if r.content.Gap? { OneTime(GapEvent(r), e); }
    }
  }

  lemma TablesAtEnd(s: Start, recs: seq<Record>, e: Replay.Event)
    ensures DeltaTable(SegmentRows(s, recs)) == Replay.Deltas(EventsOf(recs))
    ensures SnapshotTable(SegmentRows(s, recs)) == Replay.SnapshotRows(EventsOf(recs))
    ensures Times(GapTable(SegmentRows(s, recs)), e) == Times(Replay.Gaps(EventsOf(recs)), e)
  {
    var last := Unresolved(s.name, PendingAfter(recs));
    TablesJoin(RowsAfter(s, recs), last);
    TablesSoFar(s, recs, e);
    UnresolvedTables(s.name, PendingAfter(recs), e);
    TimesJoin(GapTable(RowsAfter(s, recs)), GapTable(last), e);
  }

  lemma SameTimes(a: seq<Replay.Event>, b: seq<Replay.Event>)
    requires forall e :: Times(a, e) == Times(b, e)
    ensures multiset(a) == multiset(b)
  {
    forall e: Replay.Event ensures multiset(a)[e] == multiset(b)[e] {
      TimesIsCount(a, e);
      TimesIsCount(b, e);
      assert Times(a, e) == Times(b, e);
    }
  }

  /** The tables hold the segment's changes: deltas and snapshot rows in order, each gap exactly once. */
  lemma TablesHoldTheRun(s: Start, recs: seq<Record>)
    ensures DeltaTable(SegmentRows(s, recs)) == Replay.Deltas(EventsOf(recs))
    ensures SnapshotTable(SegmentRows(s, recs)) == Replay.SnapshotRows(EventsOf(recs))
    ensures multiset(GapTable(SegmentRows(s, recs))) == multiset(Replay.Gaps(EventsOf(recs)))
  {
    TablesAtEnd(s, recs, Replay.Event(0, 0, 0, Replay.Gap(Key(0), Key(0))));
    forall e ensures Times(GapTable(SegmentRows(s, recs)), e) == Times(Replay.Gaps(EventsOf(recs)), e) {
      TablesAtEnd(s, recs, e);
    }
    SameTimes(GapTable(SegmentRows(s, recs)), Replay.Gaps(EventsOf(recs)));
  }

  // ------------------------------------------------------------------ a whole hour

  /** The changes of an hour's segments, in the order they are read. */
  function HourEvents(segments: seq<Segment>): seq<Replay.Event> {
    if segments == [] then []
    else HourEvents(segments[..|segments| - 1]) + EventsOf(segments[|segments| - 1].records)
  }

  lemma {:induction false} DeltasJoin(a: seq<Replay.Event>, b: seq<Replay.Event>)
    ensures Replay.Deltas(a + b) == Replay.Deltas(a) + Replay.Deltas(b)
  {
    if b == [] {
      assert a + b == a;
    } else {
      DeltasJoin(a, b[..|b| - 1]);
      assert (a + b)[..|a + b| - 1] == a + b[..|b| - 1];
    }
  }

  function OwnSnapshotRows(e: Replay.Event): seq<Replay.Row> {
    if e.change.Snapshot? then Replay.RowsOf(e) else []
  }

  lemma SnapshotRowsSnoc(es: seq<Replay.Event>, x: Replay.Event)
    ensures Replay.SnapshotRows(es + [x]) == Replay.SnapshotRows(es) + OwnSnapshotRows(x)
  {
    assert (es + [x])[..|es|] == es;
  }

  lemma {:induction false} SnapshotRowsJoin(a: seq<Replay.Event>, b: seq<Replay.Event>)
    ensures Replay.SnapshotRows(a + b) == Replay.SnapshotRows(a) + Replay.SnapshotRows(b)
  {
    if b == [] {
      assert a + b == a;
    } else {
      var init, x := b[..|b| - 1], b[|b| - 1];
      SnapshotRowsJoin(a, init);
      SnapshotRowsSnoc(a + init, x);
      SnapshotRowsSnoc(init, x);
      assert b == init + [x] && a + b == (a + init) + [x];
      Join(Replay.SnapshotRows(a), Replay.SnapshotRows(init), OwnSnapshotRows(x));
    }
  }

  lemma {:induction false} GapsJoin(a: seq<Replay.Event>, b: seq<Replay.Event>)
    ensures Replay.Gaps(a + b) == Replay.Gaps(a) + Replay.Gaps(b)
  {
    if b == [] {
      assert a + b == a;
    } else {
      GapsJoin(a, b[..|b| - 1]);
      assert (a + b)[..|a + b| - 1] == a + b[..|b| - 1];
    }
  }

  /** The tables hold an hour's changes: deltas and snapshot rows in order, each gap exactly once. */
  lemma {:induction false} TablesHoldTheHour(segments: seq<Segment>)
    ensures DeltaTable(HourRows(segments)) == Replay.Deltas(HourEvents(segments))
    ensures SnapshotTable(HourRows(segments)) == Replay.SnapshotRows(HourEvents(segments))
    ensures multiset(GapTable(HourRows(segments))) == multiset(Replay.Gaps(HourEvents(segments)))
  {
    if segments != [] {
      var init, x := segments[..|segments| - 1], segments[|segments| - 1];
      TablesHoldTheHour(init);
      TablesHoldTheRun(StartOf(init, x), x.records);
      TablesJoin(HourRows(init), SegmentRows(StartOf(init, x), x.records));
      DeltasJoin(HourEvents(init), EventsOf(x.records));
      SnapshotRowsJoin(HourEvents(init), EventsOf(x.records));
      GapsJoin(HourEvents(init), EventsOf(x.records));
    }
  }

  // ------------------------------------------------------------------ tables of the same changes in another order

  lemma {:induction false} ChangesCount(es: seq<Replay.Event>, e: Replay.Event)
    ensures multiset(Replay.Deltas(es))[e] == if e.change.Delta? then multiset(es)[e] else 0
    ensures multiset(Replay.Gaps(es))[e] == if e.change.Gap? then multiset(es)[e] else 0
  {
    if es != [] {
      var init, last := es[..|es| - 1], es[|es| - 1];
      assert es == init + [last];
      ChangesCount(init, e);
      CountSnoc(init, last, e);
      CountSnoc(Replay.Deltas(init), last, e);
      CountSnoc(Replay.Gaps(init), last, e);
    }
  }

  /** How often a row is among those of one change. */
  ghost function RowTimes(e: Replay.Event, r: Replay.Row): nat {
    if e.change.Snapshot? then multiset(Replay.RowsOf(e))[r] else 0
  }

  ghost function RowsTimes(es: seq<Replay.Event>, r: Replay.Row): nat {
    if es == [] then 0 else RowsTimes(es[..|es| - 1], r) + RowTimes(es[|es| - 1], r)
  }

  lemma {:induction false} RowsCount(es: seq<Replay.Event>, r: Replay.Row)
    ensures multiset(Replay.SnapshotRows(es))[r] == RowsTimes(es, r)
  {
    if es != [] { RowsCount(es[..|es| - 1], r); }
  }

  lemma {:induction false} RowsTimesJoin(a: seq<Replay.Event>, b: seq<Replay.Event>, r: Replay.Row)
    ensures RowsTimes(a + b, r) == RowsTimes(a, r) + RowsTimes(b, r)
  {
    if b == [] {
      assert a + b == a;
    } else {
      RowsTimesJoin(a, b[..|b| - 1], r);
      assert (a + b)[..|a + b| - 1] == a + b[..|b| - 1];
    }
  }

  lemma RowsTimesSnoc(es: seq<Replay.Event>, x: Replay.Event, r: Replay.Row)
    ensures RowsTimes(es + [x], r) == RowsTimes(es, r) + RowTimes(x, r)
  {
    assert (es + [x])[..|es|] == es;
  }

  lemma RowsTimesWithout(es: seq<Replay.Event>, k: nat, r: Replay.Row)
    requires k < |es|
    ensures multiset(es) == multiset(es[..k] + es[k + 1..]) + multiset{es[k]}
    ensures RowsTimes(es, r) == RowsTimes(es[..k] + es[k + 1..], r) + RowTimes(es[k], r)
  {
    assert es == (es[..k] + [es[k]]) + es[k + 1..];
    RowsTimesJoin(es[..k] + [es[k]], es[k + 1..], r);
    RowsTimesSnoc(es[..k], es[k], r);
    RowsTimesJoin(es[..k], es[k + 1..], r);
  }

  lemma {:induction false} RowsTimesAlike(a: seq<Replay.Event>, b: seq<Replay.Event>, r: Replay.Row)
    requires multiset(a) == multiset(b)
    ensures RowsTimes(a, r) == RowsTimes(b, r)
  {
    SameLength(a, b);
    if a != [] {
      var init, x := a[..|a| - 1], a[|a| - 1];
      var k := FoundIn(a, b);
      RowsTimesWithout(b, k, r);
      WithoutAlike(a, b, k);
      RowsTimesAlike(init, b[..k] + b[k + 1..], r);
    }
  }

  lemma SameLength(a: seq<Replay.Event>, b: seq<Replay.Event>)
    requires multiset(a) == multiset(b)
    ensures |a| == |b|
  {
    assert |a| == |multiset(a)| && |b| == |multiset(b)|;
  }

  lemma FoundIn(a: seq<Replay.Event>, b: seq<Replay.Event>) returns (k: nat)
    requires multiset(a) == multiset(b) && a != []
    ensures k < |b| && b[k] == a[|a| - 1]
  {
    assert a[|a| - 1] in multiset(a);
    assert a[|a| - 1] in multiset(b);
    k :| 0 <= k < |b| && b[k] == a[|a| - 1];
  }

  lemma MovedLast(es: seq<Replay.Event>, k: nat)
    requires k < |es|
    ensures multiset(es) == multiset(es[..k] + es[k + 1..] + [es[k]])
  {
    assert es == es[..k] + ([es[k]] + es[k + 1..]);
  }

  lemma WithoutAlike(a: seq<Replay.Event>, b: seq<Replay.Event>, k: nat)
    requires multiset(a) == multiset(b) && a != [] && k < |b| && b[k] == a[|a| - 1]
    ensures multiset(a[..|a| - 1]) == multiset(b[..k] + b[k + 1..])
  {
    var x, rest := b[k], b[..k] + b[k + 1..];
    assert a == a[..|a| - 1] + [x];
    MovedLast(b, k);
    forall e: Replay.Event
      ensures multiset(a[..|a| - 1])[e] == multiset(rest)[e]
    {
      CountSnoc(a[..|a| - 1], x, e);
      CountSnoc(rest, x, e);
    }
  }

  /** The same changes in another order make the same tables, in another order. */
  lemma SameTables(a: seq<Replay.Event>, b: seq<Replay.Event>)
    requires multiset(a) == multiset(b)
    ensures multiset(Replay.Deltas(a)) == multiset(Replay.Deltas(b))
    ensures multiset(Replay.Gaps(a)) == multiset(Replay.Gaps(b))
    ensures multiset(Replay.SnapshotRows(a)) == multiset(Replay.SnapshotRows(b))
  {
    forall e: Replay.Event
      ensures multiset(Replay.Deltas(a))[e] == multiset(Replay.Deltas(b))[e]
      ensures multiset(Replay.Gaps(a))[e] == multiset(Replay.Gaps(b))[e]
    {
      ChangesCount(a, e);
      ChangesCount(b, e);
    }
    forall r: Replay.Row
      ensures multiset(Replay.SnapshotRows(a))[r] == multiset(Replay.SnapshotRows(b))[r]
    {
      RowsCount(a, r);
      RowsCount(b, r);
      RowsTimesAlike(a, b, r);
    }
  }

  // ------------------------------------------------------------------ from the tape to the receive order

  /** The frame before a gap on the tape is the one that revealed it: they share their receipt. */
  predicate RevealsNext(frame: Replay.Event, gap: Replay.Event) {
    !frame.change.Gap? && gap.change.Gap? && frame.mono == gap.mono
  }

  /** The order in which the recorder acts on what it taped: each gap before the frame that revealed it. */
  function Revealed(es: seq<Replay.Event>): seq<Replay.Event> {
    if |es| < 2 then es
    else if RevealsNext(es[|es| - 2], es[|es| - 1]) then
      Revealed(es[..|es| - 2]) + [es[|es| - 1], es[|es| - 2]]
    else Revealed(es[..|es| - 1]) + [es[|es| - 1]]
  }

  lemma {:induction false} RevealedHolds(es: seq<Replay.Event>)
    ensures multiset(Revealed(es)) == multiset(es)
  {
    var n := |es|;
    if n >= 2 {
      if RevealsNext(es[n - 2], es[n - 1]) {
        RevealedHolds(es[..n - 2]);
        Swapped(es[..n - 2], Revealed(es[..n - 2]), es[n - 2], es[n - 1]);
        LastTwo(es);
      } else {
        RevealedHolds(es[..n - 1]);
        Appended(es[..n - 1], Revealed(es[..n - 1]), es[n - 1]);
        PrefixGrows(es, n - 1);
        assert es[..n] == es;
      }
    }
  }

  lemma LastTwo(es: seq<Replay.Event>)
    requires |es| >= 2
    ensures es == es[..|es| - 2] + [es[|es| - 2], es[|es| - 1]]
  {
  }

  lemma Appended(a: seq<Replay.Event>, b: seq<Replay.Event>, x: Replay.Event)
    requires multiset(a) == multiset(b)
    ensures multiset(b + [x]) == multiset(a + [x])
  {
  }

  lemma Swapped(a: seq<Replay.Event>, b: seq<Replay.Event>, x: Replay.Event, y: Replay.Event)
    requires multiset(a) == multiset(b)
    ensures multiset(b + [y, x]) == multiset(a + [x, y])
  {
  }

  lemma RevealedHas(es: seq<Replay.Event>, i: nat) returns (k: nat)
    requires i < |Revealed(es)|
    ensures k < |es| && es[k] == Revealed(es)[i]
  {
    RevealedHolds(es);
    assert Revealed(es)[i] in multiset(Revealed(es));
    assert Revealed(es)[i] in multiset(es);
    k :| 0 <= k < |es| && es[k] == Revealed(es)[i];
  }

  /** What a tape holds: monotonic receipts ascend, but for a gap right behind the frame that revealed it. */
  ghost predicate Taped(es: seq<Replay.Event>) {
    forall i, j :: 0 <= i < j < |es| ==>
      es[i].mono < es[j].mono || (j == i + 1 && RevealsNext(es[i], es[j]))
  }

  lemma {:induction false} TapedIsReceived(es: seq<Replay.Event>)
    requires Taped(es)
    ensures Replay.Received(Revealed(es))
  {
    var n := |es|;
    if n >= 2 {
      var m := if RevealsNext(es[n - 2], es[n - 1]) then n - 2 else n - 1;
      TapedIsReceived(es[..m]);
      var before := Revealed(es[..m]);
      forall i, j | 0 <= i < |before| && m <= j < n
        ensures before[i].mono < es[j].mono
      {
        var k := RevealedHas(es[..m], i);
        assert es[k] == before[i];
        assert k < j;
      }
    }
  }

  lemma {:induction false} RevealedStamps(es: seq<Replay.Event>)
    requires Replay.DistinctStamps(es)
    ensures Replay.DistinctStamps(Revealed(es))
  {
    var n := |es|;
    if n >= 2 {
      var m := if RevealsNext(es[n - 2], es[n - 1]) then n - 2 else n - 1;
      RevealedStamps(es[..m]);
      var before := Revealed(es[..m]);
      forall i, j | 0 <= i < |before| && m <= j < n && before[i].change.Snapshot? && es[j].change.Snapshot?
        ensures Replay.StampOf(before[i]) != Replay.StampOf(es[j])
      {
        var k := RevealedHas(es[..m], i);
        assert es[k] == before[i];
        assert k < j;
      }
    }
  }

  /** The order matters: of a snapshot and the gap it revealed, folded as taped, the gap leaves the book stale; the
      recorder resynchronized first and then took the snapshot. */
  lemma TapeOrderLeavesStale(t: Ticker, conn: Key, sid: Key, mono: int, seqNo: int)
    ensures var frame := Replay.Event(0, mono, seqNo, Replay.Snapshot(t, conn, sid, [], []));
            var gap := Replay.Event(0, mono, seqNo, Replay.Gap(conn, sid));
            var start := Replay.State(map[], map[]);
            && Taped([frame, gap]) && Revealed([frame, gap]) == [gap, frame]
            && StaleAfter(start, [frame, gap], t) && !StaleAfter(start, Revealed([frame, gap]), t)
  {
    var frame := Replay.Event(0, mono, seqNo, Replay.Snapshot(t, conn, sid, [], []));
    var gap := Replay.Event(0, mono, seqNo, Replay.Gap(conn, sid));
    var start := Replay.State(map[], map[]);
    assert [frame, gap][..0] == [];
    TwoApplied(start, frame, gap);
    TwoApplied(start, gap, frame);
    EmptyIsValid([]);
  }

  ghost predicate StaleAfter(s: Replay.State, es: seq<Replay.Event>, t: Ticker) {
    var books := Replay.AppliedAll(s, es).books;
    t in books && books[t].stale
  }

  lemma AppliedSnoc(s: Replay.State, es: seq<Replay.Event>, x: Replay.Event)
    ensures Replay.AppliedAll(s, es + [x]) == Replay.Applied(Replay.AppliedAll(s, es), x.change)
  {
    assert (es + [x])[..|es|] == es;
  }

  lemma TwoApplied(s: Replay.State, a: Replay.Event, b: Replay.Event)
    ensures Replay.AppliedAll(s, [a, b]) == Replay.Applied(Replay.Applied(s, a.change), b.change)
  {
    AppliedSnoc(s, [], a);
    AppliedSnoc(s, [a], b);
    assert [] + [a] == [a] && [a] + [b] == [a, b];
  }

  lemma EmptyIsValid(none: seq<OrderBook.Level>)
    requires none == []
    ensures OrderBook.ValidSnapshot(none, none)
  {
    assert OrderBook.MapOf(none) == map[];
    assert OrderBook.MapOf(none).Keys == {};
  }

  // ------------------------------------------------------------------ from records to books

  /** Tables as baked, each shuffled, and what regrouping and replay make of them. */
  ghost predicate ReplayedFrom(
      baked: seq<Emitted>, deltas: seq<Replay.Event>, rows: seq<Replay.Row>, snapshots: seq<Replay.Event>,
      gaps: seq<Replay.Event>, ordered: seq<Replay.Event>)
  {
    && multiset(deltas) == multiset(DeltaTable(baked))
    && multiset(rows) == multiset(SnapshotTable(baked))
    && multiset(gaps) == multiset(GapTable(baked))
    && Replay.Regrouped(Replay.ByStamp(rows), snapshots)
    && Replay.Replays(deltas + snapshots + gaps, ordered)
  }

  lemma TablesReplay(
      baked: seq<Emitted>, es: seq<Replay.Event>, run: seq<Replay.Event>, state: Replay.State,
      deltas: seq<Replay.Event>, rows: seq<Replay.Row>, snapshots: seq<Replay.Event>, gaps: seq<Replay.Event>,
      ordered: seq<Replay.Event>)
    requires DeltaTable(baked) == Replay.Deltas(es) && SnapshotTable(baked) == Replay.SnapshotRows(es)
    requires multiset(GapTable(baked)) == multiset(Replay.Gaps(es))
    requires multiset(run) == multiset(es) && Replay.Received(run) && Replay.DistinctStamps(run)
    requires ReplayedFrom(baked, deltas, rows, snapshots, gaps, ordered)
    requires !Replay.Restarted(deltas + snapshots + gaps)
    ensures Replay.AppliedAll(state, ordered) == Replay.AppliedAll(state, run)
  {
    SameTables(run, es);
    Replay.ReplayRestoresTheRun(state, run, deltas, rows, snapshots, gaps, ordered);
  }

  /** From the records of an hour to the books: interpret its segments, shuffle what they emitted table by table,
      regroup and replay, and if no restart shows every book is what folding the hour's changes in receive order makes
      it, a gap before the frame that revealed it, whatever segments and connections they were taped by. */
  lemma BakedHourReplays(
      segments: seq<Segment>, run: seq<Replay.Event>, state: Replay.State, deltas: seq<Replay.Event>,
      rows: seq<Replay.Row>, snapshots: seq<Replay.Event>, gaps: seq<Replay.Event>, ordered: seq<Replay.Event>)
    requires multiset(run) == multiset(HourEvents(segments)) && Replay.Received(run) && Replay.DistinctStamps(run)
    requires ReplayedFrom(HourRows(segments), deltas, rows, snapshots, gaps, ordered)
    requires !Replay.Restarted(deltas + snapshots + gaps)
    ensures Replay.AppliedAll(state, ordered) == Replay.AppliedAll(state, run)
  {
    TablesHoldTheHour(segments);
    TablesReplay(HourRows(segments), HourEvents(segments), run, state, deltas, rows, snapshots, gaps, ordered);
  }

  /** The segments of one connection need no order given: it is that of the tape, each gap moved before the frame in
      front of it. */
  lemma BakedConnectionReplays(
      segments: seq<Segment>, state: Replay.State, deltas: seq<Replay.Event>, rows: seq<Replay.Row>,
      snapshots: seq<Replay.Event>, gaps: seq<Replay.Event>, ordered: seq<Replay.Event>)
    requires Taped(HourEvents(segments)) && Replay.DistinctStamps(HourEvents(segments))
    requires ReplayedFrom(HourRows(segments), deltas, rows, snapshots, gaps, ordered)
    requires !Replay.Restarted(deltas + snapshots + gaps)
    ensures Replay.AppliedAll(state, ordered) == Replay.AppliedAll(state, Revealed(HourEvents(segments)))
  {
    var es := HourEvents(segments);
    RevealedHolds(es);
    TapedIsReceived(es);
    RevealedStamps(es);
    BakedHourReplays(segments, Revealed(es), state, deltas, rows, snapshots, gaps, ordered);
  }

  /** The same of one segment, however the hour goes on. */
  lemma BakedSegmentReplays(
      s: Start, recs: seq<Record>, state: Replay.State, deltas: seq<Replay.Event>, rows: seq<Replay.Row>,
      snapshots: seq<Replay.Event>, gaps: seq<Replay.Event>, ordered: seq<Replay.Event>)
    requires Replay.Received(Revealed(EventsOf(recs))) && Replay.DistinctStamps(EventsOf(recs))
    requires ReplayedFrom(SegmentRows(s, recs), deltas, rows, snapshots, gaps, ordered)
    requires !Replay.Restarted(deltas + snapshots + gaps)
    ensures Replay.AppliedAll(state, ordered) == Replay.AppliedAll(state, Revealed(EventsOf(recs)))
  {
    var es := EventsOf(recs);
    TablesHoldTheRun(s, recs);
    RevealedHolds(es);
    RevealedStamps(es);
    TablesReplay(SegmentRows(s, recs), es, Revealed(es), state, deltas, rows, snapshots, gaps, ordered);
  }
}
