/** The objects that read an hour's segments record by record: `src/tape/bake/interpret.py`. What they gather is
    given by the functions of `Interpret` on the records read. */
module Interpreter {
  import opened Prelude
  import opened Counts
  import opened Interpret
  import Audit
  import Replay
  import Uptime

  // ------------------------------------------------------------------ how the functions grow by one record

  lemma Extends<T>(s: seq<T>, x: T)
    ensures (s + [x])[..|s|] == s && (s + [x])[|s|] == x
  {
  }

  /** Only a frame, a gap or an audit emits rows, and only a snapshot resolves gaps. */
  lemma NoRows(
      place: Place, r: Record, reason: Reason, staled: set<Ticker>, s: Start, ps: seq<Pending>, rows: seq<Emitted>)
    ensures !r.content.Snapshot? ==>
            rows + (OwnRows(place, r, reason, staled) + ResolvedBy(s, ps, r)) ==
            rows + OwnRows(place, r, reason, staled)
    ensures KindOf(r.content) in {CommandKind, ConnectionKind} ==> rows + OwnRows(place, r, reason, staled) == rows
  {
    if !r.content.Snapshot? { assert OwnRows(place, r, reason, staled) + [] == OwnRows(place, r, reason, staled); }
    if KindOf(r.content) in {CommandKind, ConnectionKind} { assert rows + [] == rows; }
  }

  lemma MarketsGrow(recs: seq<Record>, r: Record)
    ensures MarketsAfter(recs + [r]) == MarketsNext(MarketsAfter(recs), r)
            && SidsAfter(recs + [r]) == SidsNext(SidsAfter(recs), r.content)
  {
    Extends(recs, r);
  }

  lemma RequestsGrow(recs: seq<Record>, r: Record)
    ensures RequestsAfter(recs + [r]) == RequestsNext(RequestsAfter(recs), r.content)
    ensures SnapshottedAfter(recs + [r]) ==
            SnapshottedAfter(recs) + (if r.content.Snapshot? then {(r.content.sid, r.content.ticker)} else {})
  {
    Extends(recs, r);
  }

  lemma PendingGrows(recs: seq<Record>, r: Record)
    ensures PendingAfter(recs + [r]) == PendingNext(PendingAfter(recs), StaledIn(MarketsAfter(recs), r), |recs|, r)
  {
    Extends(recs, r);
  }

  function EventNext(last: Option<Happening>, r: Record): Option<Happening> {
    match r.content
    case Connection(h) => if h.Opened? || h.Closed? || h.Errored? then Some(h) else last
    case _ => last
  }

  lemma EventsGrow(hourStart: int, recs: seq<Record>, r: Record)
    ensures LastEvent(recs + [r]) == EventNext(LastEvent(recs), r)
    ensures OpeningAfter(hourStart, recs + [r]) == OpeningNext(OpeningBefore(hourStart, recs, r), r)
    ensures Opens(recs + [r]) == Opens(if recs == [] then [r] else recs)
  {
    Extends(recs, r);
  }

  // ------------------------------------------------------------------ what an hour gathers

  /** A damaged segment is listed beside the failures, however many there are. */
  function Spoilt(s: Samples, place: Place, damaged: bool): Samples {
    if damaged then s.(listed := s.listed + [Sample(SegmentCorrupt, place)]) else s
  }

  datatype Gathered = Gathered(rows: seq<Emitted>, counters: Counters, samples: Samples, time: BookTime,
      spans: seq<Uptime.Span>, facts: Facts)

  ghost function GatheredNext(
      g: Gathered, s: Start, conn: Key, hourStart: int, before: seq<Record>, r: Record): Gathered
  {
    Gathered(g.rows + Emits(s, before, r), Counted(g.counters, r.content),
        Sampled(g.samples, Place(s.name, |before|), r.content),
             TimeNext(g.time, MarketsAfter(before), r),
                 g.spans + SpansNext(conn, OpeningBefore(hourStart, before, r), r), FactsNext(g.facts, r))
  }

  ghost function GatheredAfter(g: Gathered, s: Start, conn: Key, hourStart: int, recs: seq<Record>): Gathered {
    if recs == [] then g
    else GatheredNext(GatheredAfter(g, s, conn, hourStart, recs[..|recs| - 1]), s, conn, hourStart, recs[..|recs| - 1],
        recs[|recs| - 1])
  }

  lemma GatheredNextIs(g: Gathered, s: Start, conn: Key, hourStart: int, all: seq<Record>, init: seq<Record>, r: Record)
    requires all != [] && all[..|all| - 1] == init && all[|all| - 1] == r
    ensures GatheredAfter(g, s, conn, hourStart, all) ==
            GatheredNext(GatheredAfter(g, s, conn, hourStart, init), s, conn, hourStart, init, r)
  {
  }

  lemma {:induction false} RowsGathered(g: Gathered, s: Start, conn: Key, hourStart: int, recs: seq<Record>)
    ensures GatheredAfter(g, s, conn, hourStart, recs).rows == g.rows + RowsAfter(s, recs)
  {
    if recs == [] {
      assert g.rows + [] == g.rows;
    } else {
      var init, r := recs[..|recs| - 1], recs[|recs| - 1];
      RowsGathered(g, s, conn, hourStart, init);
      Join(g.rows, RowsAfter(s, init), Emits(s, init, r));
    }
  }

  lemma {:induction false} CountsGathered(g: Gathered, s: Start, conn: Key, hourStart: int, recs: seq<Record>)
    ensures GatheredAfter(g, s, conn, hourStart, recs).counters == CountedAll(g.counters, recs)
    ensures GatheredAfter(g, s, conn, hourStart, recs).samples == SampledAll(g.samples, s.name, recs)
  {
    if recs != [] { CountsGathered(g, s, conn, hourStart, recs[..|recs| - 1]); }
  }

  lemma {:induction false} TimeGathered(g: Gathered, s: Start, conn: Key, hourStart: int, recs: seq<Record>)
    ensures GatheredAfter(g, s, conn, hourStart, recs).time == TimeAfter(g.time, recs)
  {
    if recs != [] { TimeGathered(g, s, conn, hourStart, recs[..|recs| - 1]); }
  }

  lemma {:induction false} SpansGathered(g: Gathered, s: Start, conn: Key, hourStart: int, recs: seq<Record>)
    ensures GatheredAfter(g, s, conn, hourStart, recs).spans == g.spans + SpansAfter(conn, hourStart, recs)
    ensures GatheredAfter(g, s, conn, hourStart, recs).facts == FactsAfter(g.facts, recs)
  {
    if recs == [] {
      assert g.spans + [] == g.spans;
    } else {
      var init, r := recs[..|recs| - 1], recs[|recs| - 1];
      SpansGathered(g, s, conn, hourStart, init);
      Join(g.spans, SpansAfter(conn, hourStart, init), SpansNext(conn, OpeningBefore(hourStart, init, r), r));
    }
  }

  /** With what is accounted for when the segment ends. */
  ghost function Finished(h: Gathered, s: Start, conn: Key, hourStart: int, recs: seq<Record>): Gathered {
    h.(rows := h.rows + Unresolved(s.name, PendingAfter(recs)),
       time := if recs == [] then h.time else h.time.Plus(Spent(MarketsAfter(recs), recs[|recs| - 1].wall)),
       spans := h.spans + LastSpan(conn, hourStart, recs))
  }

  ghost function Ended(g: Gathered, s: Start, conn: Key, hourStart: int, recs: seq<Record>, damaged: bool): Gathered {
    var h := GatheredAfter(g, s, conn, hourStart, recs);
    Finished(h.(samples := Spoilt(h.samples, Place(s.name, |recs|), damaged)), s, conn, hourStart, recs)
  }

  lemma EndedRows(g: Gathered, s: Start, conn: Key, hourStart: int, recs: seq<Record>, damaged: bool)
    ensures Ended(g, s, conn, hourStart, recs, damaged).rows == g.rows + SegmentRows(s, recs)
  {
    RowsGathered(g, s, conn, hourStart, recs);
    Join(g.rows, RowsAfter(s, recs), Unresolved(s.name, PendingAfter(recs)));
  }

  lemma EndedCounts(g: Gathered, s: Start, conn: Key, hourStart: int, recs: seq<Record>, damaged: bool)
    ensures var e := Ended(g, s, conn, hourStart, recs, damaged);
            && e.counters == CountedAll(g.counters, recs)
            && e.samples == Spoilt(SampledAll(g.samples, s.name, recs), Place(s.name, |recs|), damaged)
  {
    CountsGathered(g, s, conn, hourStart, recs);
  }

  lemma EndedTime(g: Gathered, s: Start, conn: Key, hourStart: int, recs: seq<Record>, damaged: bool)
    ensures Ended(g, s, conn, hourStart, recs, damaged).time == TimeAtEnd(g.time, recs)
  {
    TimeGathered(g, s, conn, hourStart, recs);
  }

  lemma EndedSpans(g: Gathered, s: Start, conn: Key, hourStart: int, recs: seq<Record>, damaged: bool)
    ensures var e := Ended(g, s, conn, hourStart, recs, damaged);
            e.spans == g.spans + SegmentSpans(conn, hourStart, recs) && e.facts == FactsAfter(g.facts, recs)
  {
    SpansGathered(g, s, conn, hourStart, recs);
    Join(g.spans, SpansAfter(conn, hourStart, recs), LastSpan(conn, hourStart, recs));
  }

  /** What reading a segment adds to the hour: its rows, every record counted, book time, spans and facts. */
  lemma SegmentAdds(g: Gathered, s: Start, conn: Key, hourStart: int, recs: seq<Record>, damaged: bool)
    ensures Ended(g, s, conn, hourStart, recs, damaged) ==
              Gathered(g.rows + SegmentRows(s, recs), CountedAll(g.counters, recs),
                       Spoilt(SampledAll(g.samples, s.name, recs), Place(s.name, |recs|), damaged),
                       TimeAtEnd(g.time, recs), g.spans + SegmentSpans(conn, hourStart, recs),
                           FactsAfter(g.facts, recs))
  {
    EndedRows(g, s, conn, hourStart, recs, damaged);
    EndedCounts(g, s, conn, hourStart, recs, damaged);
    EndedTime(g, s, conn, hourStart, recs, damaged);
    EndedSpans(g, s, conn, hourStart, recs, damaged);
  }

  lemma SpentGrows(ms: Markets, gone: set<Ticker>, t: Ticker, now: int)
    requires t in ms && t !in gone
    ensures Spent(Part(ms, gone + {t}), now) == Spent(Part(ms, gone), now).Plus(SpentBy(ms[t], now))
  {
    ObservedGrows(ms, gone, t, now);
    StaleGrows(ms, gone, t, now);
  }

  ghost function LeftTime(was: BookTime, ms: Markets, left: set<Ticker>, wall: int): BookTime {
    was.Plus(Spent(Part(ms, left), wall))
  }

  lemma LeftTimeGrows(was: BookTime, ms: Markets, left: set<Ticker>, t: Ticker, wall: int)
    requires t in ms && t !in left
    ensures LeftTime(was, ms, left + {t}, wall) == LeftTime(was, ms, left, wall).Plus(SpentBy(ms[t], wall))
  {
    SpentGrows(ms, left, t, wall);
  }

  /** What one market adds when it is no longer followed. */
  function SpentBy(m: Market, now: int): BookTime {
    BookTime(Max(0, now - m.since), if m.staleSince.Some? then Max(0, now - m.staleSince.value) else 0)
  }

  lemma ObservedGrows(ms: Markets, gone: set<Ticker>, t: Ticker, now: int)
    requires t in ms && t !in gone
    ensures Spent(Part(ms, gone + {t}), now).observed ==
            Spent(Part(ms, gone), now).observed + SpentBy(ms[t], now).observed
  {
    var before := Since(Part(ms, gone), now);
    TotalPut(before, t, Max(0, now - ms[t].since));
    assert Since(Part(ms, gone + {t}), now) == before[t := Max(0, now - ms[t].since)];
  }

  lemma StaleGrows(ms: Markets, gone: set<Ticker>, t: Ticker, now: int)
    requires t in ms && t !in gone
    ensures Spent(Part(ms, gone + {t}), now).stale == Spent(Part(ms, gone), now).stale + SpentBy(ms[t], now).stale
  {
    var before := StaleSince(Part(ms, gone), now);
    if ms[t].staleSince.Some? {
      TotalPut(before, t, Max(0, now - ms[t].staleSince.value));
      assert StaleSince(Part(ms, gone + {t}), now) == before[t := Max(0, now - ms[t].staleSince.value)];
    } else {
      assert StaleSince(Part(ms, gone + {t}), now) == before;
    }
  }

  lemma NothingSpent(ms: Markets, now: int)
    ensures Spent(Part(ms, {}), now) == BookTime(0, 0)
  {
    assert Since(Part(ms, {}), now) == map[] && StaleSince(Part(ms, {}), now) == map[];
  }

  // ------------------------------------------------------------------ the hour

  class HourInterpreter {
    const start: int
    var rows: seq<Emitted>
    var counters: Counters
    var samples: Samples
    var corruptSegments: nat
    var spans: seq<Uptime.Span>
    var time: BookTime
    var facts: Facts
    var lostConnection: map<Key, bool>

    function View(): Gathered
      reads this
    {
      Gathered(rows, counters, samples, time, spans, facts)
    }

    constructor (start: int)
      ensures this.start == start && rows == [] && counters == Counters(map[], map[], map[], map[])
              && samples == Samples([], map[])
      ensures corruptSegments == 0 && spans == [] && time == BookTime(0, 0) && facts == Facts({}, 0, map[], 0, 0)
              && lostConnection == map[]
    {
      this.start := start;
      rows, counters, samples := [], Counters(map[], map[], map[], map[]), Samples([], map[]);
      corruptSegments, spans, time, facts, lostConnection := 0, [], BookTime(0, 0), Facts({}, 0, map[], 0, 0), map[];
    }

    method Emit(place: Place, row: Row)
      modifies this`rows
      ensures rows == old(rows) + [Emitted(place, row)]
    {
      rows := rows + [Emitted(place, row)];
    }

    /** Count a failure and keep it as a sample while its class has room. */
    method Fail(failure: Failure, place: Place)
      modifies this`counters, this`samples
      ensures counters == old(counters).(failures := Bumped(old(counters).failures, failure))
      ensures samples == if Get(old(samples).kept, failure) < MAX_FAILURE_SAMPLES
                         then Samples(old(samples).listed + [Sample(failure, place)],
                             Bumped(old(samples).kept, failure)) else old(samples)
    {
      counters := counters.(failures := Bumped(counters.failures, failure));
      var kept := Get(samples.kept, failure);
      if kept < MAX_FAILURE_SAMPLES {
        samples := Samples(samples.listed + [Sample(failure, place)], samples.kept[failure := kept + 1]);
      }
    }

    /** Count the record under its kind and its outcome; a failure is sampled. */
    method Count(content: Content, place: Place)
      modifies this`counters, this`samples
      ensures counters == Counted(old(counters), content)
      ensures samples == Sampled(old(samples), place, content)
    {
      counters := counters.(records := Bumped(counters.records, KindOf(content)));
      match OutcomeOf(content)
      case Baked(b) => counters := counters.(baked := Bumped(counters.baked, b));
      case NotBaked(n) => counters := counters.(notBaked := Bumped(counters.notBaked, n));
      case Failed(f) => Fail(f, place);
    }

    method CorruptSegment(name: Key, index: nat)
      modifies this`corruptSegments, this`samples
      ensures corruptSegments == old(corruptSegments) + 1
      ensures samples == Spoilt(old(samples), Place(name, index), true)
    {
      corruptSegments := corruptSegments + 1;
      samples := Samples(samples.listed + [Sample(SegmentCorrupt, Place(name, index))], samples.kept);
    }

    /** Interpret a segment to its end, or to where its records turn out damaged. */
    method ReadSegment(name: Key, conn: Key, records: seq<Record>, damaged: bool)
      modifies this
      ensures View() ==
              Ended(old(View()), Start(name, conn in old(lostConnection) && old(lostConnection)[conn]), conn, start,
              records, damaged)
      ensures lostConnection == old(lostConnection)[conn := Lost(records)]
      ensures corruptSegments == old(corruptSegments) + (if damaged then 1 else 0)
    {
      var segment := new SegmentInterpreter(this, name, conn, conn in lostConnection && lostConnection[conn]);
      segment.Read(records, damaged);
      lostConnection := lostConnection[conn := segment.LostConnection()];
    }
  }

  // ------------------------------------------------------------------ one segment

  /** `fed` is what was read so far. */
  class SegmentInterpreter {
    const hour: HourInterpreter
    const name: Key
    const conn: Key
    const afterLost: bool
    var index: nat
    var lastWall: Option<int>
    var opensConnection: bool
    var opening: Option<Opening>
    var lastEvent: Option<Happening>
    var bookSids: set<Key>
    var requested: Requests
    var snapshotted: set<(Key, Ticker)>
    var markets: Markets
    var pendingGaps: seq<Pending>
    ghost var fed: seq<Record>

    ghost predicate Follows()
      reads this
    {
      && index == |fed| && lastWall == (if fed == [] then None else Some(fed[|fed| - 1].wall))
      && opensConnection == Opens(fed) && (opening == if fed == [] then None else OpeningAfter(hour.start, fed))
      && lastEvent == LastEvent(fed) && bookSids == SidsAfter(fed) && requested == RequestsAfter(fed)
      && snapshotted == SnapshottedAfter(fed) && markets == MarketsAfter(fed) && pendingGaps == PendingAfter(fed)
    }

    constructor (hour: HourInterpreter, name: Key, conn: Key, afterLost: bool)
      ensures this.hour == hour && this.name == name && this.conn == conn && this.afterLost == afterLost
      ensures Follows() && fed == []
    {
      this.hour, this.name, this.conn, this.afterLost := hour, name, conn, afterLost;
      index, lastWall, opensConnection, opening, lastEvent := 0, None, false, None, None;
      bookSids, requested, snapshotted, markets, pendingGaps, fed := {}, map[], {}, map[], [], [];
    }

    predicate LostConnection()
      reads this
    {
      lastEvent == Some(Closed(false))
    }

    /** Read to the end, or to where the records turn out damaged. */
    method Read(records: seq<Record>, damaged: bool)
      requires Follows() && fed == []
      modifies this, hour`counters, hour`samples, hour`rows, hour`time, hour`spans, hour`facts, hour`corruptSegments
      ensures lastEvent == LastEvent(records)
      ensures hour.View() == Ended(old(hour.View()), Start(name, afterLost), conn, hour.start, records, damaged)
      ensures hour.corruptSegments == old(hour.corruptSegments) + (if damaged then 1 else 0)
    {
      FeedAll(records);
      End(damaged);
    }

    method End(damaged: bool)
      requires Follows()
      modifies this`opening, this`pendingGaps, hour`rows, hour`time, hour`spans, hour`samples, hour`corruptSegments
      ensures hour.View() ==
              Finished(old(hour.View()).(samples := Spoilt(old(hour.samples), Place(name, |fed|), damaged)),
                       Start(name, afterLost), conn, hour.start, fed)
      ensures hour.corruptSegments == old(hour.corruptSegments) + (if damaged then 1 else 0)
    {
      if damaged { hour.CorruptSegment(name, index); }
      Finish();
    }

    method FeedAll(records: seq<Record>)
      requires Follows() && fed == []
      modifies this, hour`counters, hour`samples, hour`rows, hour`time, hour`spans, hour`facts
      ensures Follows() && fed == records
      ensures hour.View() == GatheredAfter(old(hour.View()), Start(name, afterLost), conn, hour.start, records)
    {
      ghost var was := hour.View();
      for k := 0 to |records|
        invariant Follows() && fed == records[..k]
        invariant hour.View() == GatheredAfter(was, Start(name, afterLost), conn, hour.start, fed)
      {
        PrefixGrows(records, k);
        FeedNext(records[k], was);
      }
    }

    method FeedNext(r: Record, ghost was: Gathered)
      requires Follows() && hour.View() == GatheredAfter(was, Start(name, afterLost), conn, hour.start, fed)
      modifies this, hour`counters, hour`samples, hour`rows, hour`time, hour`spans, hour`facts
      ensures Follows() && fed == old(fed) + [r]
              && hour.View() == GatheredAfter(was, Start(name, afterLost), conn, hour.start, fed)
    {
      Extends(fed, r);
      GatheredNextIs(was, Start(name, afterLost), conn, hour.start, fed + [r], fed, r);
      Feed(r);
    }

    method Feed(r: Record)
      requires Follows()
      modifies this, hour`counters, hour`samples, hour`rows, hour`time, hour`spans, hour`facts
      ensures Follows() && fed == old(fed) + [r]
      ensures hour.View() == GatheredNext(old(hour.View()), Start(name, afterLost), conn, hour.start, old(fed), r)
    {
      ghost var before := fed;
      forall t | t in markets ensures markets[t].sid in bookSids { HeldSidsCarryBooks(before, t); }
      MarketsGrow(before, r);
      RequestsGrow(before, r);
      PendingGrows(before, r);
      EventsGrow(hour.start, before, r);
      Take(r);
      fed := fed + [r];
    }

    method Take(r: Record)
      requires forall t :: t in markets ==> markets[t].sid in bookSids
      modifies this`index, this`lastWall, this`opensConnection
      modifies this`opening, this`lastEvent, this`bookSids, this`requested, this`snapshotted, this`markets,
          this`pendingGaps
      modifies hour`counters, hour`samples, hour`rows, hour`time, hour`spans, hour`facts
      ensures index == old(index) + 1 && lastWall == Some(r.wall)
      ensures opensConnection == if old(lastWall).None? then Opens([r]) else old(opensConnection)
      ensures opening == OpeningNext(if old(lastWall).None? then OpeningBefore(hour.start, [], r) else old(opening), r)
      ensures lastEvent == EventNext(old(lastEvent), r)
      ensures markets == MarketsNext(old(markets), r) && bookSids == SidsNext(old(bookSids), r.content)
      ensures requested == RequestsNext(old(requested), r.content)
      ensures snapshotted ==
              old(snapshotted) + (if r.content.Snapshot? then {(r.content.sid, r.content.ticker)} else {})
      ensures pendingGaps == PendingNext(old(pendingGaps), StaledIn(old(markets), r), old(index), r)
      ensures hour.counters == Counted(old(hour.counters), r.content)
      ensures hour.samples == Sampled(old(hour.samples), Place(name, old(index)), r.content)
      ensures hour.rows == old(hour.rows)
                           + (OwnRows(Place(name, old(index)), r,
                               ReasonIn(old(requested), old(snapshotted), opensConnection && afterLost, r),
                               StaledIn(old(markets), r))
                              + ResolvedBy(Start(name, afterLost), old(pendingGaps), r))
      ensures hour.time == TimeNext(old(hour.time), old(markets), r)
      ensures hour.spans ==
              old(hour.spans)
              + SpansNext(conn, if old(lastWall).None? then OpeningBefore(hour.start, [], r) else old(opening), r)
      ensures hour.facts == FactsNext(old(hour.facts), r)
    {
      if lastWall.None? { Begin(r); }
      lastWall := Some(r.wall);
      hour.Count(r.content, Place(name, index));
      Dispatch(r);
      index := index + 1;
    }

    /** A segment whose first record is not an opening continues a connection open since the hour began. */
    method Begin(r: Record)
      modifies this`opensConnection, this`opening
      ensures opensConnection == Opens([r]) && opening == OpeningBefore(hour.start, [], r)
    {
      opensConnection := r.content.Connection? && (r.content.happening.Opened? || r.content.happening.Errored?);
      opening := if opensConnection then None else Some(Opening(hour.start, false));
    }

    method Dispatch(r: Record)
      requires forall t :: t in markets ==> markets[t].sid in bookSids
      modifies this`opening, this`lastEvent, this`bookSids, this`requested, this`snapshotted, this`markets,
          this`pendingGaps
      modifies hour`rows, hour`time, hour`spans, hour`facts
      ensures markets == MarketsNext(old(markets), r)
      ensures bookSids == SidsNext(old(bookSids), r.content)
      ensures requested == RequestsNext(old(requested), r.content)
      ensures snapshotted ==
              old(snapshotted) + (if r.content.Snapshot? then {(r.content.sid, r.content.ticker)} else {})
      ensures pendingGaps == PendingNext(old(pendingGaps), StaledIn(old(markets), r), index, r)
      ensures opening == OpeningNext(old(opening), r) && lastEvent == EventNext(old(lastEvent), r)
      ensures hour.rows == old(hour.rows)
                           + (OwnRows(Place(name, index), r,
                               ReasonIn(old(requested), old(snapshotted), opensConnection && afterLost, r),
                               StaledIn(old(markets), r))
                              + ResolvedBy(Start(name, afterLost), old(pendingGaps), r))
      ensures hour.time == TimeNext(old(hour.time), old(markets), r)
      ensures hour.spans == old(hour.spans) + SpansNext(conn, old(opening), r)
      ensures hour.facts == FactsNext(old(hour.facts), r)
    {
      NoRows(Place(name, index), r, ReasonIn(requested, snapshotted, opensConnection && afterLost, r),
          StaledIn(markets, r), Start(name, afterLost), pendingGaps, hour.rows);
      if KindOf(r.content) == FrameKind {
        OnFrame(r);
      } else if r.content.Gap? {
        OnGap(r);
      } else if r.content.Audited? {
        OnAudit(r);
      } else if r.content.Command? {
        OnCommand(r);
      } else if r.content.Connection? {
        OnConnection(r);
      }
    }

    method OnAudit(r: Record)
      requires r.content.Audited?
      modifies hour`rows, hour`facts
      ensures hour.rows == old(hour.rows) + OwnRows(Place(name, index), r, Initial, {})
      ensures hour.facts == FactsNext(old(hour.facts), r)
    {
      AddAudit(r.content.outcome, r.content.mismatched);
      EmitPlain(r);
    }

    method OnFrame(r: Record)
      requires KindOf(r.content) == FrameKind
      modifies this`bookSids, this`requested, this`snapshotted, this`markets, this`pendingGaps, hour`rows, hour`time
      ensures markets == MarketsNext(old(markets), r)
      ensures bookSids == SidsNext(old(bookSids), r.content)
      ensures requested == RequestsNext(old(requested), r.content)
      ensures snapshotted ==
              old(snapshotted) + (if r.content.Snapshot? then {(r.content.sid, r.content.ticker)} else {})
      ensures pendingGaps == PendingNext(old(pendingGaps), {}, index, r)
      ensures hour.rows == old(hour.rows)
                           + (OwnRows(Place(name, index), r,
                               ReasonIn(old(requested), old(snapshotted), opensConnection && afterLost, r), {})
                              + ResolvedBy(Start(name, afterLost), old(pendingGaps), r))
      ensures hour.time == TimeNext(old(hour.time), old(markets), r)
    {
      ghost var own := OwnRows(Place(name, index), r, Initial, {});
      assert own + [] == own;
      if r.content.Snapshot? {
        OnSnapshot(r);
      } else {
        if r.content.Delta? {
          bookSids := bookSids + {r.content.sid};
          Observe(r.content.ticker, r.content.sid, r.wall);
        } else if r.content.Subscribed? && r.content.orderbook {
          bookSids := bookSids + {r.content.sid};
        }
        EmitPlain(r);
      }
    }

    /** The row of a record that has one and is neither a snapshot nor a gap. */
    method EmitPlain(r: Record)
      requires !r.content.Snapshot? && !r.content.Gap?
      modifies hour`rows
      ensures hour.rows == old(hour.rows) + OwnRows(Place(name, index), r, Initial, {})
    {
      var row := PlainRow(r);
      if row != [] { hour.Emit(Place(name, index), row[0]); }
    }

    method Observe(t: Ticker, sid: Key, wall: int)
      modifies this`markets
      ensures markets == Seen(old(markets), t, sid, wall)
    {
      if t !in markets { markets := markets[t := Market(sid, wall, None)]; }
    }

    method SnapshotReason(sid: Key, t: Ticker) returns (reason: Reason)
      modifies this`requested, this`snapshotted
      ensures snapshotted == old(snapshotted) + {(sid, t)}
      ensures requested ==
              if sid in old(requested) then old(requested)[sid := old(requested)[sid] - {t}] else old(requested)
      ensures reason == ReasonFrom(old(requested), old(snapshotted), opensConnection && afterLost, sid, t)
    {
      var repeated := (sid, t) in snapshotted;
      snapshotted := snapshotted + {(sid, t)};
      if sid in requested && t in requested[sid] {
        requested := requested[sid := requested[sid] - {t}];
        return Resync;
      }
      if sid in requested { assert requested[sid] - {t} == requested[sid]; }
      if repeated { return Resync; }
      reason := if opensConnection && afterLost then Reconnect else Initial;
    }

    method OnSnapshot(r: Record)
      requires r.content.Snapshot?
      modifies this`bookSids, this`requested, this`snapshotted, this`markets, this`pendingGaps, hour`rows, hour`time
      ensures markets == MarketsNext(old(markets), r)
      ensures bookSids == old(bookSids) + {r.content.sid}
      ensures requested == RequestsNext(old(requested), r.content)
      ensures snapshotted == old(snapshotted) + {(r.content.sid, r.content.ticker)}
      ensures pendingGaps == StillPending(old(pendingGaps), r.content.sid, r.content.ticker)
      ensures hour.rows == old(hour.rows)
                           + Stamped(Place(name, index), Replay.RowsOf(SnapshotEvent(r)),
                               ReasonFrom(old(requested), old(snapshotted), opensConnection
                               && afterLost, r.content.sid, r.content.ticker))
                           + Resolved(name, old(pendingGaps), r.content.sid, r.content.ticker, r.wall)
      ensures hour.time == TimeNext(old(hour.time), old(markets), r)
    {
      var t, sid := r.content.ticker, r.content.sid;
      var reason := SnapshotReason(sid, t);
      bookSids := bookSids + {sid};
      Observe(t, sid, r.wall);
      var market := markets[t];
      if market.staleSince.Some? {
        hour.time := hour.time.Plus(BookTime(0, r.wall - market.staleSince.value));
      }
      markets := markets[t := market.(staleSince := None)];
      EmitCells(Replay.RowsOf(SnapshotEvent(r)), reason);
      ResolveGaps(sid, t, r.wall);
    }

    method EmitCells(rows: seq<Replay.Row>, reason: Reason)
      modifies hour`rows
      ensures hour.rows == old(hour.rows) + Stamped(Place(name, index), rows, reason)
    {
      for k := 0 to |rows|
        invariant hour.rows == old(hour.rows) + Stamped(Place(name, index), rows[..k], reason)
      {
        assert rows[..k + 1][..k] == rows[..k];
        hour.Emit(Place(name, index), SnapshotRow(rows[k], reason));
      }
      assert rows[..|rows|] == rows;
    }

    method ResolveGaps(sid: Key, t: Ticker, wall: int)
      modifies this`pendingGaps, hour`rows
      ensures pendingGaps == StillPending(old(pendingGaps), sid, t)
      ensures hour.rows == old(hour.rows) + Resolved(name, old(pendingGaps), sid, t, wall)
    {
      var stillPending: seq<Pending> := [];
      for k := 0 to |pendingGaps|
        invariant pendingGaps == old(pendingGaps) && stillPending == StillPending(pendingGaps[..k], sid, t)
        invariant hour.rows == old(hour.rows) + Resolved(name, pendingGaps[..k], sid, t, wall)
      {
        assert pendingGaps[..k + 1][..k] == pendingGaps[..k];
        var pending := pendingGaps[k];
        if pending.sid == sid && pending.waiting - {t} == {} {
          hour.Emit(Place(name, pending.index), GapRow(pending.event, pending.expected, Some(wall)));
        } else {
          stillPending :=
              stillPending + [if pending.sid == sid then pending.(waiting := pending.waiting - {t}) else pending];
        }
      }
      assert pendingGaps[..|pendingGaps|] == pendingGaps;
      pendingGaps := stillPending;
    }

    method OnCommand(r: Record)
      requires r.content.Command?
      modifies this`requested, this`markets, hour`time
      ensures requested == RequestsNext(old(requested), r.content) && markets == MarketsNext(old(markets), r)
      ensures hour.time == TimeNext(old(hour.time), old(markets), r)
    {
      var c, wall := r.content.command, r.wall;
      match c
      case GetSnapshot(sid, ts) =>
        NothingSpent(markets, wall);
        requested := requested[sid := AskedOn(requested, sid) + Elems(ts)];
      case DeleteMarkets(ts) => LeaveAll(LeftBy(markets, c), wall);
      case Unsubscribe(sids) => LeaveAll(LeftBy(markets, c), wall);
      case OtherCommand => NothingSpent(markets, wall);
    }

    /** The order in which markets leave makes no difference. */
    method LeaveAll(gone: set<Ticker>, wall: int)
      requires gone <= markets.Keys
      modifies this`markets, hour`time
      ensures markets == old(markets) - gone
      ensures hour.time == old(hour.time).Plus(Spent(Part(old(markets), gone), wall))
    {
      ghost var ms, was, left := markets, hour.time, {};
      var todo := gone;
      NothingSpent(markets, wall);
      while todo != {}
        invariant todo <= gone && left == gone - todo && markets == ms - left
        invariant hour.time == LeftTime(was, ms, left, wall)
        decreases |todo|
      {
        var t :| t in todo;
        LeftTimeGrows(was, ms, left, t, wall);
        Leave(t, wall);
        todo, left := todo - {t}, left + {t};
        assert markets == ms - left;
      }
      assert left == gone;
    }

    method Leave(t: Ticker, wall: int)
      requires t in markets
      modifies this`markets, hour`time
      ensures markets == old(markets) - {t} && hour.time == old(hour.time).Plus(SpentBy(old(markets)[t], wall))
    {
      hour.time := hour.time.Plus(SpentBy(markets[t], wall));
      markets := markets - {t};
    }

    method OnGap(r: Record)
      requires r.content.Gap?
      requires forall t :: t in markets ==> markets[t].sid in bookSids
      modifies this`markets, this`pendingGaps, hour`rows, hour`facts
      ensures markets == MarketsNext(old(markets), r)
      ensures pendingGaps == PendingNext(old(pendingGaps), StaledIn(old(markets), r), index, r)
      ensures hour.rows == old(hour.rows) + OwnRows(Place(name, index), r, Initial, StaledIn(old(markets), r))
      ensures hour.facts == FactsNext(old(hour.facts), r)
    {
      hour.facts := hour.facts.(gaps := hour.facts.gaps + 1);
      var waiting := {};
      if r.content.sid in bookSids { waiting := Stale(r.content.sid, r.wall); }
      else { assert StalledOn(markets, r.content.sid, r.wall) == markets && HeldOn(markets, r.content.sid) == {}; }
      if waiting != {} {
        pendingGaps := pendingGaps + [Pending(index, GapEvent(r), r.content.expected, r.content.sid, waiting)];
      } else {
        hour.Emit(Place(name, index), GapRow(GapEvent(r), r.content.expected, None));
      }
    }

    /** Every book the subscription carries goes stale, in whatever order the markets are visited. */
    method Stale(sid: Key, wall: int) returns (waiting: set<Ticker>)
      modifies this`markets
      ensures markets == StalledOn(old(markets), sid, wall) && waiting == HeldOn(old(markets), sid)
    {
      var left, was := markets.Keys, markets;
      waiting := {};
      while left != {}
        invariant left <= was.Keys && markets.Keys == was.Keys
        invariant forall t ::
                  t in was ==> markets[t] == if t in left || was[t].sid != sid then was[t] else Stalled(was[t], wall)
        invariant forall t :: t in waiting <==> t in was && t !in left && was[t].sid == sid
        decreases |left|
      {
        var t :| t in left;
        if markets[t].sid == sid {
          waiting := waiting + {t};
          if markets[t].staleSince.None? { markets := markets[t := markets[t].(staleSince := Some(wall))]; }
        }
        left := left - {t};
      }
    }

    method AddAudit(outcome: Audit.Outcome, mismatched: Option<nat>)
      modifies hour`facts
      ensures hour.facts == old(hour.facts).(audits := Bumped(old(hour.facts).audits, outcome),
                mismatched :=
                    old(hour.facts).mismatched
                    + (if outcome != Audit.Undecidable && mismatched.Some? then mismatched.value else 0))
    {
      hour.facts := hour.facts.(audits := Bumped(hour.facts.audits, outcome));
      if outcome != Audit.Undecidable && mismatched.Some? {
        hour.facts := hour.facts.(mismatched := hour.facts.mismatched + mismatched.value);
      }
    }

    method OnConnection(r: Record)
      requires r.content.Connection?
      modifies this`opening, this`lastEvent, hour`spans, hour`facts
      ensures opening == OpeningNext(old(opening), r) && lastEvent == EventNext(old(lastEvent), r)
      ensures hour.spans == old(hour.spans) + SpansNext(conn, old(opening), r)
      ensures hour.facts == FactsNext(old(hour.facts), r)
    {
      var h, wall := r.content.happening, r.wall;
      match h {
        case Opened =>
          CloseSpan(wall, false);
          opening := Some(Opening(wall, true));
        case Closed(_) => CloseSpan(wall, true);
        case ClockJump(Some(w), Some(m)) =>
          if w > m { hour.facts := hour.facts.(sleeps := hour.facts.sleeps + {Uptime.Interval(wall - (w - m), wall)}); }
        case WriterOverflow(Some(n)) => hour.facts := hour.facts.(dropped := hour.facts.dropped + n);
        case _ =>
      }
      if h.Opened? || h.Closed? || h.Errored? { lastEvent := Some(h); }
    }

    method CloseSpan(end: int, closed: bool)
      modifies this`opening, hour`spans
      ensures opening == None
      ensures hour.spans ==
              old(hour.spans) + (if old(opening).Some? then [SpanTo(conn, old(opening).value, end, closed)] else [])
    {
      if opening.None? { return; }
      hour.spans := hour.spans + [SpanTo(conn, opening.value, end, closed)];
      opening := None;
    }

    /** What is still followed, open or pending at the end of the segment is accounted for. */
    method Finish()
      requires Follows()
      modifies this`opening, this`pendingGaps, hour`rows, hour`time, hour`spans
      ensures hour.View() == Finished(old(hour.View()), Start(name, afterLost), conn, hour.start, fed)
    {
      if lastWall.Some? {
        EndMarkets(lastWall.value);
        CloseSpan(lastWall.value, false);
      }
      EmitUnresolved();
    }

    method EmitUnresolved()
      modifies this`pendingGaps, hour`rows
      ensures hour.rows == old(hour.rows) + Unresolved(name, old(pendingGaps))
    {
      for k := 0 to |pendingGaps|
        invariant pendingGaps == old(pendingGaps)
        invariant hour.rows == old(hour.rows) + Unresolved(name, pendingGaps[..k])
      {
        assert pendingGaps[..k + 1][..k] == pendingGaps[..k];
        hour.Emit(Place(name, pendingGaps[k].index), GapRow(pendingGaps[k].event, pendingGaps[k].expected, None));
      }
      assert pendingGaps[..|pendingGaps|] == pendingGaps;
      pendingGaps := [];
    }

    method EndMarkets(end: int)
      modifies hour`time
      ensures hour.time == old(hour.time).Plus(Spent(markets, end))
    {
      var left := markets.Keys;
      NothingSpent(markets, end);
      while left != {}
        invariant left <= markets.Keys
        invariant hour.time == old(hour.time).Plus(Spent(Part(markets, markets.Keys - left), end))
        decreases |left|
      {
        var t :| t in left;
        SpentGrows(markets, markets.Keys - left, t, end);
        assert markets.Keys - (left - {t}) == (markets.Keys - left) + {t};
        hour.time := hour.time.Plus(SpentBy(markets[t], end));
        left := left - {t};
      }
      assert Part(markets, markets.Keys - left) == markets;
    }
  }
}
