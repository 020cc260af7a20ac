/** Uptime as a measure: interval arithmetic of `src/tape/bake/manifest.py`. */
module Uptime {
  import opened Prelude

  datatype Interval = Interval(start: int, end: int)

  /** `start` up to and not including `end`; every interval of the manifest has `start <= end`. */
  ghost predicate Covers(xs: seq<Interval>, p: int) {
    exists i :: 0 <= i < |xs| && xs[i].start <= p < xs[i].end
  }

  ghost predicate Proper(xs: seq<Interval>) {
    forall i :: 0 <= i < |xs| ==> xs[i].start <= xs[i].end
  }

  /** Sorted, and apart from each other. */
  ghost predicate Apart(xs: seq<Interval>) {
    Proper(xs) && forall i, j :: 0 <= i < j < |xs| ==> xs[i].end < xs[j].start
  }

  ghost predicate ByStart(xs: seq<Interval>) {
    forall i, j :: 0 <= i < j < |xs| ==> xs[i].start <= xs[j].start
  }

  // ------------------------------------------------------------------ counting instants

  /** How many instants in `[low, high)` satisfy `f`. */
  ghost function Count(low: int, high: int, f: int -> bool): nat
    decreases high - low
  {
    if high <= low then 0 else Count(low, high - 1, f) + (if f(high - 1) then 1 else 0)
  }

  ghost function In(xs: seq<Interval>): int -> bool {
    p => Covers(xs, p)
  }

  ghost function InBoth(a: seq<Interval>, b: seq<Interval>): int -> bool {
    p => Covers(a, p) && Covers(b, p)
  }

  /** Recording: covered by a span and by no sleep. */
  ghost function InFirstOnly(a: seq<Interval>, b: seq<Interval>): int -> bool {
    p => Covers(a, p) && !Covers(b, p)
  }

  lemma {:induction false} CountSplits(low: int, mid: int, high: int, f: int -> bool)
    requires low <= mid <= high
    ensures Count(low, high, f) == Count(low, mid, f) + Count(mid, high, f)
    decreases high - mid
  {
    if mid < high { CountSplits(low, mid, high - 1, f); }
  }

  lemma {:induction false} CountNone(low: int, high: int, f: int -> bool)
    requires forall p :: low <= p < high ==> !f(p)
    ensures Count(low, high, f) == 0
    decreases high - low
  {
    if low < high { CountNone(low, high - 1, f); }
  }

  lemma {:induction false} CountAll(low: int, high: int, f: int -> bool)
    requires forall p :: low <= p < high ==> f(p)
    ensures Count(low, high, f) == if low <= high then high - low else 0
    decreases high - low
  {
    if low < high { CountAll(low, high - 1, f); }
  }

  lemma {:induction false} CountSame(low: int, high: int, f: int -> bool, g: int -> bool)
    requires forall p :: low <= p < high ==> f(p) == g(p)
    ensures Count(low, high, f) == Count(low, high, g)
    decreases high - low
  {
    if low < high { CountSame(low, high - 1, f, g); }
  }

  lemma {:induction false} CountOnly(low: int, high: int, a: seq<Interval>, b: seq<Interval>)
    ensures Count(low, high, InFirstOnly(a, b)) == Count(low, high, In(a)) - Count(low, high, InBoth(a, b))
    ensures Count(low, high, InFirstOnly(a, b)) <= if low <= high then high - low else 0
    decreases high - low
  {
    if low < high { CountOnly(low, high - 1, a, b); }
  }

  /** The instants of `f` in a stretch where it holds exactly on `[from, to)`. */
  lemma CountStretch(low: int, high: int, from: int, to: int, f: int -> bool)
    requires low <= from && to <= high && low <= high
    requires forall p :: low <= p < high ==> (f(p) <==> from <= p < to)
    ensures Count(low, high, f) == if from < to then to - from else 0
  {
    if from < to {
      CountSplits(low, from, high, f);
      CountSplits(from, to, high, f);
      CountNone(low, from, f);
      CountAll(from, to, f);
      CountNone(to, high, f);
    } else {
      CountNone(low, high, f);
    }
  }

  // ------------------------------------------------------------------ union

  predicate Before(a: Interval, b: Interval) {
    a.start < b.start || (a.start == b.start && a.end <= b.end)
  }

  function Inserted(x: Interval, xs: seq<Interval>): seq<Interval> {
    if xs == [] then [x] else if Before(x, xs[0]) then [x] + xs else [xs[0]] + Inserted(x, xs[1..])
  }

  function SortedIntervals(xs: seq<Interval>): seq<Interval> {
    if xs == [] then [] else Inserted(xs[0], SortedIntervals(xs[1..]))
  }

  lemma {:induction false} InsertedKeeps(x: Interval, xs: seq<Interval>)
    requires ByStart(xs) && Proper(xs) && x.start <= x.end
    ensures ByStart(Inserted(x, xs)) && Proper(Inserted(x, xs))
    ensures forall y :: y in Inserted(x, xs) <==> y == x || y in xs
  {
    if xs != [] && !Before(x, xs[0]) {
      InsertedKeeps(x, xs[1..]);
      var rest := Inserted(x, xs[1..]);
      assert forall y :: y in xs[1..] ==> y in xs;
      assert xs == [xs[0]] + xs[1..];
      forall i | 0 <= i < |rest| ensures xs[0].start <= rest[i].start { assert rest[i] in rest; }
    }
  }

  lemma {:induction false} SortedIntervalsKeep(xs: seq<Interval>)
    requires Proper(xs)
    ensures ByStart(SortedIntervals(xs)) && Proper(SortedIntervals(xs))
    ensures forall y :: y in SortedIntervals(xs) <==> y in xs
  {
    if xs != [] {
      SortedIntervalsKeep(xs[1..]);
      InsertedKeeps(xs[0], SortedIntervals(xs[1..]));
      assert xs == [xs[0]] + xs[1..];
    }
  }

  lemma SameMembersSamePoints(xs: seq<Interval>, ys: seq<Interval>)
    requires forall y :: y in xs <==> y in ys
    ensures forall p :: Covers(xs, p) <==> Covers(ys, p)
  {
    forall p | Covers(xs, p) ensures Covers(ys, p) {
      var i :| 0 <= i < |xs| && xs[i].start <= p < xs[i].end;
      assert xs[i] in ys;
    }
    forall p | Covers(ys, p) ensures Covers(xs, p) {
      var i :| 0 <= i < |ys| && ys[i].start <= p < ys[i].end;
      assert ys[i] in xs;
    }
  }

  lemma CoversSnoc(xs: seq<Interval>, x: Interval, p: int)
    ensures Covers(xs + [x], p) <==> Covers(xs, p) || x.start <= p < x.end
  {
    var all := xs + [x];
    if Covers(xs, p) {
      var i :| 0 <= i < |xs| && xs[i].start <= p < xs[i].end;
      assert all[i] == xs[i];
    }
    if x.start <= p < x.end { assert all[|xs|] == x; }
  }

  /** Widening the last interval by one that starts inside it. */
  lemma CoversWidened(init: seq<Interval>, last: Interval, x: Interval, p: int)
    requires last.start <= x.start <= last.end
    ensures Covers(init + [Interval(last.start, Max(last.end, x.end))], p) <==> Covers(init + [last] + [x], p)
  {
    CoversSnoc(init, Interval(last.start, Max(last.end, x.end)), p);
    CoversSnoc(init, last, p);
    CoversSnoc(init + [last], x, p);
  }

  /** `x` joins the last interval when it starts inside it, and otherwise comes after it. */
  function Joined(merged: seq<Interval>, x: Interval): seq<Interval> {
    if merged != [] && x.start <= merged[|merged| - 1].end
    then merged[..|merged| - 1] + [merged[|merged| - 1].(end := Max(merged[|merged| - 1].end, x.end))]
    else merged + [x]
  }

  lemma JoinedCovers(merged: seq<Interval>, x: Interval, p: int)
    requires merged != [] ==> merged[|merged| - 1].start <= x.start
    ensures Covers(Joined(merged, x), p) <==> Covers(merged, p) || x.start <= p < x.end
  {
    CoversSnoc(merged, x, p);
    if merged != [] && x.start <= merged[|merged| - 1].end {
      var init, last := merged[..|merged| - 1], merged[|merged| - 1];
      assert merged == init + [last];
      CoversWidened(init, last, x, p);
    }
  }

  lemma JoinedStaysApart(merged: seq<Interval>, x: Interval)
    requires Apart(merged) && x.start <= x.end
    requires merged != [] ==> merged[|merged| - 1].start <= x.start
    ensures Apart(Joined(merged, x)) && Joined(merged, x) != []
    ensures Joined(merged, x)[|Joined(merged, x)| - 1].start <= x.start
  {
  }

  lemma CoversNext(done: seq<Interval>, merged: seq<Interval>, x: Interval)
    requires forall p :: Covers(merged, p) <==> Covers(done, p)
    requires merged != [] ==> merged[|merged| - 1].start <= x.start
    ensures forall p :: Covers(Joined(merged, x), p) <==> Covers(done + [x], p)
  {
    forall p ensures Covers(Joined(merged, x), p) <==> Covers(done + [x], p) {
      JoinedCovers(merged, x, p);
      CoversSnoc(done, x, p);
    }
  }

  /** Sorted, disjoint, and the same instants. */
  method Union(intervals: seq<Interval>) returns (merged: seq<Interval>)
    requires Proper(intervals)
    ensures Apart(merged)
    ensures forall p :: Covers(merged, p) <==> Covers(intervals, p)
  {
    var sorted := SortedIntervals(intervals);
    SortedIntervalsKeep(intervals);
    SameMembersSamePoints(sorted, intervals);
    merged := [];
    for k := 0 to |sorted|
      invariant Apart(merged)
      invariant k < |sorted| && merged != [] ==> merged[|merged| - 1].start <= sorted[k].start
      invariant forall p :: Covers(merged, p) <==> Covers(sorted[..k], p)
    {
      var x := sorted[k];
      assert sorted[..k + 1] == sorted[..k] + [x];
      CoversNext(sorted[..k], merged, x);
      JoinedStaysApart(merged, x);
      if merged != [] && x.start <= merged[|merged| - 1].end {
        var last := merged[|merged| - 1];
        merged := merged[..|merged| - 1] + [last.(end := Max(last.end, x.end))];
      } else {
        merged := merged + [x];
      }
    }
    assert sorted[..|sorted|] == sorted;
  }

  // ------------------------------------------------------------------ clip, length, overlap

  function Clip(xs: seq<Interval>, low: int, high: int): seq<Interval> {
    if xs == [] then [] else
      var init, x := xs[..|xs| - 1], xs[|xs| - 1];
      Clip(init, low, high)
          + (if x.end > low && x.start < high then [Interval(Max(x.start, low), Min(x.end, high))] else [])
  }

  ghost predicate Inside(xs: seq<Interval>, low: int, high: int) {
    forall i :: 0 <= i < |xs| ==> low <= xs[i].start && xs[i].end <= high
  }

  lemma {:induction false} ClipCovers(xs: seq<Interval>, low: int, high: int, p: int)
    requires low < high
    ensures Covers(Clip(xs, low, high), p) <==> Covers(xs, p) && low <= p < high
  {
    if xs != [] {
      var init, x := xs[..|xs| - 1], xs[|xs| - 1];
      ClipCovers(init, low, high, p);
      assert xs == init + [x];
      CoversSnoc(init, x, p);
      var before, cut := Clip(init, low, high), Interval(Max(x.start, low), Min(x.end, high));
      CoversSnoc(before, cut, p);
      assert Clip(xs, low, high) == if x.end > low && x.start < high then before + [cut] else before;
    }
  }

  lemma {:induction false} ClipStaysApart(xs: seq<Interval>, low: int, high: int)
    requires Apart(xs) && low < high
    ensures Apart(Clip(xs, low, high)) && Inside(Clip(xs, low, high), low, high)
    ensures xs != [] ==> forall i :: 0 <= i < |Clip(xs, low, high)| ==> Clip(xs, low, high)[i].end <= xs[|xs| - 1].end
  {
    if xs != [] {
      var init, x := xs[..|xs| - 1], xs[|xs| - 1];
      ClipStaysApart(init, low, high);
      var before := Clip(init, low, high);
      if init != [] { assert init[|init| - 1].end < x.start; }
      assert forall i :: 0 <= i < |before| ==> before[i].end < x.start;
      var all := Clip(xs, low, high);
      assert all ==
             before + (if x.end > low && x.start < high then [Interval(Max(x.start, low), Min(x.end, high))] else []);
      forall i | 0 <= i < |all| ensures low <= all[i].start && all[i].end <= high && all[i].end <= x.end {
        if i < |before| { assert all[i] == before[i]; }
      }
    }
  }

  function Length(xs: seq<Interval>): int {
    if xs == [] then 0 else Length(xs[..|xs| - 1]) + xs[|xs| - 1].end - xs[|xs| - 1].start
  }

  lemma {:induction false} LengthIsMeasure(xs: seq<Interval>, low: int, high: int)
    requires Apart(xs) && Inside(xs, low, high) && low <= high
    ensures Length(xs) == Count(low, high, In(xs))
  {
    if xs == [] {
      CountNone(low, high, In(xs));
    } else {
      var init, x := xs[..|xs| - 1], xs[|xs| - 1];
      assert xs == init + [x];
      LengthIsMeasure(init, low, x.start);
      CountSplits(low, x.start, high, In(xs));
      forall p ensures Covers(xs, p) <==> Covers(init, p) || x.start <= p < x.end { CoversSnoc(init, x, p); }
      CountSame(low, x.start, In(xs), In(init));
      CountStretch(x.start, high, x.start, x.end, In(xs));
    }
  }

  lemma PairAt(a: seq<Interval>, b: seq<Interval>, i: nat, j: nat, cut: int, p: int)
    requires Apart(a) && Apart(b) && i < |a| && j < |b|
    requires forall k :: 0 <= k < i ==> a[k].end <= cut
    requires forall k :: 0 <= k < j ==> b[k].end <= cut
    requires cut <= p < Min(a[i].end, b[j].end)
    ensures InBoth(a, b)(p) <==> Max(a[i].start, b[j].start) <= p
  {
    assert forall k :: i < k < |a| ==> a[k].start > p;
    assert forall k :: j < k < |b| ==> b[k].start > p;
  }

  lemma PairCounts(a: seq<Interval>, b: seq<Interval>, i: nat, j: nat, cut: int, low: int, high: int)
    requires Apart(a) && Apart(b) && Inside(a, low, high) && i < |a| && j < |b| && low <= cut <= high
    requires forall k :: 0 <= k < i ==> a[k].end <= cut
    requires forall k :: 0 <= k < j ==> b[k].end <= cut
    requires cut <= Max(a[i].start, b[j].start)
    ensures var from, to := Max(a[i].start, b[j].start), Min(a[i].end, b[j].end);
            Count(low, Max(cut, to), InBoth(a, b)) ==
                Count(low, cut, InBoth(a, b)) + (if from < to then to - from else 0)
  {
    var from, to := Max(a[i].start, b[j].start), Min(a[i].end, b[j].end);
    if cut < to {
      CountSplits(low, cut, to, InBoth(a, b));
      forall p | cut <= p < to ensures InBoth(a, b)(p) <==> from <= p < to { PairAt(a, b, i, j, cut, p); }
      CountStretch(cut, to, from, to, InBoth(a, b));
    }
  }

  method Overlap(a: seq<Interval>, b: seq<Interval>, ghost low: int, ghost high: int) returns (total: int)
    requires Apart(a) && Apart(b) && Inside(a, low, high) && low <= high
    ensures total == Count(low, high, InBoth(a, b))
  {
    total := 0;
    var i, j := 0, 0;
    ghost var cut := low;
    ghost var f := InBoth(a, b);
    while i < |a| && j < |b|
      invariant i <= |a| && j <= |b|
      invariant low <= cut <= high
      invariant forall k :: 0 <= k < i ==> a[k].end <= cut
      invariant forall k :: 0 <= k < j ==> b[k].end <= cut
      invariant i < |a| && j < |b| ==> cut <= Max(a[i].start, b[j].start)
      invariant total == Count(low, cut, f)
      decreases |a| + |b| - i - j
    {
      var from, to := Max(a[i].start, b[j].start), Min(a[i].end, b[j].end);
      ghost var next := Max(cut, to);
      if to > from { total := total + to - from; }
      PairCounts(a, b, i, j, cut, low, high);
      cut := next;
      if a[i].end < b[j].end { i := i + 1; } else { j := j + 1; }
    }
    forall p | cut <= p < high ensures !f(p) { }
    CountNone(cut, high, f);
    CountSplits(low, cut, high, f);
  }

  // ------------------------------------------------------------------ joining a connection's spans

  datatype Span = Span(conn: Key, start: int, end: int, opens: bool, closes: bool)

  predicate SpanBefore(a: Span, b: Span) {
    a.start < b.start || (a.start == b.start && a.end <= b.end)
  }

  function SpanInserted(x: Span, xs: seq<Span>): seq<Span> {
    if xs == [] then [x] else if SpanBefore(x, xs[0]) then [x] + xs else [xs[0]] + SpanInserted(x, xs[1..])
  }

  /** One connection's spans by start and end, those alike in their given order. */
  function SpansOf(spans: seq<Span>, conn: Key): seq<Span> {
    if spans == [] then []
    else if spans[0].conn == conn then SpanInserted(spans[0], SpansOf(spans[1..], conn))
    else SpansOf(spans[1..], conn)
  }

  ghost predicate InOrder(xs: seq<Span>) {
    && (forall i :: 0 <= i < |xs| ==> xs[i].start <= xs[i].end)
    && (forall i, j :: 0 <= i < j < |xs| ==> xs[i].start <= xs[j].start)
  }

  lemma {:induction false} SpanInsertedKeeps(x: Span, xs: seq<Span>)
    requires InOrder(xs) && x.start <= x.end
    ensures InOrder(SpanInserted(x, xs))
    ensures forall y :: y in SpanInserted(x, xs) <==> y == x || y in xs
  {
    if xs != [] && !SpanBefore(x, xs[0]) {
      SpanInsertedKeeps(x, xs[1..]);
      var rest := SpanInserted(x, xs[1..]);
      assert xs == [xs[0]] + xs[1..];
      forall i | 0 <= i < |rest| ensures xs[0].start <= rest[i].start { assert rest[i] in rest; }
    }
  }

  /** The connection's spans with these ends, in their given order. */
  function Alike(xs: seq<Span>, conn: Key, start: int, end: int): seq<Span> {
    if xs == [] then [] else
      (if xs[0].conn == conn && xs[0].start == start && xs[0].end == end then [xs[0]] else [])
          + Alike(xs[1..], conn, start, end)
  }

  ghost predicate ByEnds(xs: seq<Span>) {
    forall i, j :: 0 <= i < j < |xs| ==>
                     xs[i].start < xs[j].start || (xs[i].start == xs[j].start && xs[i].end <= xs[j].end)
  }

  lemma {:induction false} InsertedByEnds(x: Span, xs: seq<Span>)
    requires ByEnds(xs)
    ensures ByEnds(SpanInserted(x, xs)) && |SpanInserted(x, xs)| == |xs| + 1
    ensures forall y :: y in SpanInserted(x, xs) <==> y == x || y in xs
  {
    if xs != [] && !SpanBefore(x, xs[0]) {
      InsertedByEnds(x, xs[1..]);
      var rest := SpanInserted(x, xs[1..]);
      assert xs == [xs[0]] + xs[1..];
      forall i | 0 <= i < |rest| ensures SpanBefore(xs[0], rest[i]) { assert rest[i] in rest; }
    }
  }

  lemma {:induction false} InsertedAlike(x: Span, xs: seq<Span>, conn: Key, start: int, end: int)
    requires ByEnds(xs)
    ensures Alike(SpanInserted(x, xs), conn, start, end) == Alike([x] + xs, conn, start, end)
  {
    assert ([x] + xs)[1..] == xs && [x][1..] == [];
    if xs != [] && !SpanBefore(x, xs[0]) {
      InsertedAlike(x, xs[1..], conn, start, end);
      assert ([x] + xs[1..])[1..] == xs[1..];
      var later := SpanInserted(x, xs[1..]);
      assert ([xs[0]] + later)[1..] == later;
    }
  }

  /** A connection's spans are listed by start and then end, each as often as it is there, and those alike in both in
      their given order. */
  lemma {:induction false} SpansOfAreSorted(spans: seq<Span>, conn: Key, start: int, end: int)
    ensures ByEnds(SpansOf(spans, conn))
    ensures Alike(SpansOf(spans, conn), conn, start, end) == Alike(spans, conn, start, end)
  {
    if spans != [] {
      SpansOfAreSorted(spans[1..], conn, start, end);
      if spans[0].conn == conn {
        var rest := SpansOf(spans[1..], conn);
        InsertedByEnds(spans[0], rest);
        InsertedAlike(spans[0], rest, conn, start, end);
        assert ([spans[0]] + rest)[1..] == rest;
      }
    }
  }

  lemma {:induction false} SpansOfAre(spans: seq<Span>, conn: Key)
    requires forall i :: 0 <= i < |spans| ==> spans[i].start <= spans[i].end
    ensures InOrder(SpansOf(spans, conn))
    ensures forall y :: y in SpansOf(spans, conn) <==> y in spans && y.conn == conn
  {
    if spans != [] {
      SpansOfAre(spans[1..], conn);
      assert spans == [spans[0]] + spans[1..];
      if spans[0].conn == conn { SpanInsertedKeeps(spans[0], SpansOf(spans[1..], conn)); }
    }
  }

  /** The connection was open at `p`: inside a span, or between one left open and a next that continues it. */
  ghost predicate OpenAt(xs: seq<Span>, p: int) {
    || (exists i :: 0 <= i < |xs| && xs[i].start <= p < xs[i].end)
    || (exists i :: 0 <= i < |xs| - 1 && !xs[i].closes && !xs[i + 1].opens && xs[i].end <= p < xs[i + 1].start)
  }

  /** The last span was left open, `x` continues it, and `p` lies between them. */
  ghost predicate Bridges(xs: seq<Span>, x: Span, p: int) {
    xs != [] && !xs[|xs| - 1].closes && !x.opens && xs[|xs| - 1].end <= p < x.start
  }

  lemma OpenSnoc(xs: seq<Span>, x: Span, p: int)
    ensures OpenAt(xs + [x], p) <==> OpenAt(xs, p) || x.start <= p < x.end || Bridges(xs, x, p)
  {
    var all := xs + [x];
    if i :| 0 <= i < |xs| && xs[i].start <= p < xs[i].end { assert all[i] == xs[i]; }
    if i :| 0 <= i < |xs| - 1 && !xs[i].closes && !xs[i + 1].opens && xs[i].end <= p < xs[i + 1].start {
      assert all[i] == xs[i] && all[i + 1] == xs[i + 1];
    }
    if x.start <= p < x.end { assert all[|xs|] == x; }
    if Bridges(xs, x, p) { assert all[|xs| - 1] == xs[|xs| - 1] && all[|xs|] == x; }
  }

  /** The interval still growing, after those already finished. */
  ghost predicate Grown(xs: seq<Span>, joined: seq<Interval>, growing: Interval) {
    && xs != [] && Proper(joined) && growing.start <= xs[|xs| - 1].start <= xs[|xs| - 1].end <= growing.end
    && (forall p :: Covers(joined + [growing], p) <==> OpenAt(xs, p))
  }

  lemma GrowsOn(xs: seq<Span>, x: Span, joined: seq<Interval>, growing: Interval)
    requires Grown(xs, joined, growing) && !xs[|xs| - 1].closes && !x.opens && xs[|xs| - 1].start <= x.start <= x.end
    ensures Grown(xs + [x], joined, growing.(end := Max(growing.end, x.end)))
  {
    var wider := growing.(end := Max(growing.end, x.end));
    forall p ensures Covers(joined + [wider], p) <==> OpenAt(xs + [x], p) {
      OpenSnoc(xs, x, p);
      CoversSnoc(joined, growing, p);
      CoversSnoc(joined, wider, p);
    }
  }

  lemma StartsAnew(xs: seq<Span>, x: Span, joined: seq<Interval>, growing: Interval)
    requires Grown(xs, joined, growing) && (xs[|xs| - 1].closes || x.opens) && x.start <= x.end
    ensures Grown(xs + [x], joined + [growing], Interval(x.start, x.end))
  {
    forall p ensures Covers(joined + [growing] + [Interval(x.start, x.end)], p) <==> OpenAt(xs + [x], p) {
      OpenSnoc(xs, x, p);
      CoversSnoc(joined + [growing], Interval(x.start, x.end), p);
    }
  }

  lemma FirstGrows(x: Span)
    requires x.start <= x.end
    ensures Grown([x], [], Interval(x.start, x.end))
  {
    var none: seq<Interval>, noSpan: seq<Span> := [], [];
    assert noSpan + [x] == [x];
    forall p ensures Covers(none + [Interval(x.start, x.end)], p) <==> OpenAt([x], p) {
      OpenSnoc(noSpan, x, p);
      CoversSnoc(none, Interval(x.start, x.end), p);
    }
  }

  /** The run of one connection: the intervals it was open for. */
  method JoinSpans(xs: seq<Span>) returns (joined: seq<Interval>)
    requires InOrder(xs)
    ensures Proper(joined)
    ensures forall p :: Covers(joined, p) <==> OpenAt(xs, p)
  {
    joined := [];
    var start: Option<int> := None;
    var end, closes := 0, true;
    for k := 0 to |xs|
      invariant if k == 0 then start.None? && joined == []
                else start.Some? && closes == xs[k - 1].closes && Grown(xs[..k], joined, Interval(start.value, end))
    {
      assert xs[..k + 1] == xs[..k] + [xs[k]];
      if start.Some? && !closes && !xs[k].opens {
        GrowsOn(xs[..k], xs[k], joined, Interval(start.value, end));
        end, closes := Max(end, xs[k].end), xs[k].closes;
      } else {
        if start.Some? {
          StartsAnew(xs[..k], xs[k], joined, Interval(start.value, end));
          joined := joined + [Interval(start.value, end)];
        } else {
          FirstGrows(xs[k]);
        }
        start, end, closes := Some(xs[k].start), xs[k].end, xs[k].closes;
      }
    }
    assert xs[..|xs|] == xs;
    if start.Some? { joined := joined + [Interval(start.value, end)]; }
  }

  // ------------------------------------------------------------------ a day's uptime

  const NS_PER_S := 1_000_000_000
  const SECONDS_PER_DAY := 86_400

  /** Some connection was open at `p`. */
  ghost predicate Taped(spans: seq<Span>, p: int) {
    exists conn: Key :: OpenAt(SpansOf(spans, conn), p)
  }

  /** The instants of the day that were taped and not slept through. */
  ghost function Recorded(spans: seq<Span>, sleeps: seq<Interval>): int -> bool {
    p => Taped(spans, p) && !Covers(sleeps, p)
  }

  ghost predicate TapedBy(spans: seq<Span>, conns: set<Key>, p: int) {
    exists conn: Key :: conn in conns && OpenAt(SpansOf(spans, conn), p)
  }

  lemma OneMoreConnection(spans: seq<Span>, conns: set<Key>, conn: Key, a: seq<Interval>, b: seq<Interval>)
    requires forall p :: Covers(a, p) <==> TapedBy(spans, conns, p)
    requires forall p :: Covers(b, p) <==> OpenAt(SpansOf(spans, conn), p)
    ensures forall p :: Covers(a + b, p) <==> TapedBy(spans, conns + {conn}, p)
  {
    forall p ensures Covers(a + b, p) <==> TapedBy(spans, conns + {conn}, p) {
      CoversBoth(a, b, p);
      assert OpenAt(SpansOf(spans, conn), p) ==> TapedBy(spans, conns + {conn}, p);
    }
  }

  lemma AllConnections(spans: seq<Span>, p: int)
    requires forall i :: 0 <= i < |spans| ==> spans[i].start <= spans[i].end
    ensures Taped(spans, p) <==> TapedBy(spans, set s | s in spans :: s.conn, p)
  {
    if Taped(spans, p) {
      var conn: Key :| OpenAt(SpansOf(spans, conn), p);
      SpansOfAre(spans, conn);
      var i :| 0 <= i < |SpansOf(spans, conn)|;
      assert SpansOf(spans, conn)[i] in spans;
    }
  }

  method JoinedSpans(spans: seq<Span>) returns (joined: seq<Interval>)
    requires forall i :: 0 <= i < |spans| ==> spans[i].start <= spans[i].end
    ensures Proper(joined)
    ensures forall p :: Covers(joined, p) <==> Taped(spans, p)
  {
    var all := set s | s in spans :: s.conn;
    var left := all;
    joined := [];
    while left != {}
      invariant left <= all && Proper(joined)
      invariant forall p :: Covers(joined, p) <==> TapedBy(spans, all - left, p)
      decreases |left|
    {
      var conn :| conn in left;
      SpansOfAre(spans, conn);
      var more := JoinSpans(SpansOf(spans, conn));
      OneMoreConnection(spans, all - left, conn, joined, more);
      joined := joined + more;
      assert all - left + {conn} == all - (left - {conn});
      left := left - {conn};
    }
    assert all - left == all;
    forall p ensures Covers(joined, p) <==> Taped(spans, p) { AllConnections(spans, p); }
  }

  lemma CoversBoth(a: seq<Interval>, b: seq<Interval>, p: int)
    ensures Covers(a + b, p) <==> Covers(a, p) || Covers(b, p)
  {
    if i :| 0 <= i < |a| && a[i].start <= p < a[i].end { assert (a + b)[i] == a[i]; }
    if i :| 0 <= i < |b| && b[i].start <= p < b[i].end { assert (a + b)[|a| + i] == b[i]; }
  }

  lemma DayIsMeasured(
      low: int, high: int, spans: seq<Span>, sleeps: seq<Interval>, merged: seq<Interval>, asleep: seq<Interval>)
    requires low < high && Apart(merged)
    requires forall p :: Covers(merged, p) <==> Taped(spans, p)
    requires forall p :: Covers(asleep, p) <==> Covers(sleeps, p)
    ensures Length(Clip(merged, low, high)) - Count(low, high, InBoth(Clip(merged, low, high), asleep)) ==
            Count(low, high, Recorded(spans, sleeps))
    ensures Count(low, high, Recorded(spans, sleeps)) <= high - low
  {
    var covered := Clip(merged, low, high);
    ClipStaysApart(merged, low, high);
    LengthIsMeasure(covered, low, high);
    CountOnly(low, high, covered, asleep);
    forall p | low <= p < high ensures InFirstOnly(covered, asleep)(p) == Recorded(spans, sleeps)(p) {
      ClipCovers(merged, low, high, p);
    }
    CountSame(low, high, InFirstOnly(covered, asleep), Recorded(spans, sleeps));
  }

  /** `summarize_uptime`: whole seconds of the instants of the day that were taped and not slept through. */
  method SecondsRecording(dayStart: int, spans: seq<Span>, sleeps: seq<Interval>) returns (seconds: int)
    requires Proper(sleeps) && forall i :: 0 <= i < |spans| ==> spans[i].start <= spans[i].end
    ensures var ns := Count(dayStart, dayStart + 86_400_000_000_000, Recorded(spans, sleeps));
            seconds * 1_000_000_000 <= ns < (seconds + 1) * 1_000_000_000
    ensures 0 <= seconds <= 86_400
  {
    var dayEnd := dayStart + SECONDS_PER_DAY * NS_PER_S;
    var joined := JoinedSpans(spans);
    var merged := Union(joined);
    var covered := Clip(merged, dayStart, dayEnd);
    ClipStaysApart(merged, dayStart, dayEnd);
    var asleep := Union(sleeps);
    var both := Overlap(covered, asleep, dayStart, dayEnd);
    var ns := Length(covered) - both;
    DayIsMeasured(dayStart, dayEnd, spans, sleeps, merged, asleep);
    seconds := ns / NS_PER_S;
  }
}
