/** The client's rate limiter: `src/tape/client/ratelimit.py`. */
module RateLimit {
  import opened Prelude

  const NS_PER_S := 1_000_000_000

  datatype Limits = Limits(refillPerS: int, capacity: int) {
    predicate Valid() { 0 < refillPerS <= capacity }
  }

  /** Tokens in billionths, and the latest time seen. */
  datatype Level = Level(tokensE9: int, last: int)

  predicate InRange(l: Limits, b: Level) {
    l.Valid() && 0 <= b.tokensE9 <= l.capacity * NS_PER_S
  }

  function Refilled(l: Limits, b: Level, now: int): Level {
    if now <= b.last then b else Level(Min(l.capacity * NS_PER_S, b.tokensE9 + (now - b.last) * l.refillPerS), now)
  }

  predicate Affordable(l: Limits, b: Level, tokens: int, now: int) {
    Refilled(l, b, now).tokensE9 >= tokens * NS_PER_S
  }

  function Taken(l: Limits, b: Level, tokens: int, now: int): Level {
    var r := Refilled(l, b, now);
    if r.tokensE9 >= tokens * NS_PER_S then r.(tokensE9 := r.tokensE9 - tokens * NS_PER_S) else r
  }

  /** Rounded up, so that a caller never wakes a nanosecond early. */
  function Wait(l: Limits, b: Level, tokens: int, now: int): int
    requires l.refillPerS > 0
  {
    var shortfall := tokens * NS_PER_S - Refilled(l, b, now).tokensE9;
    if shortfall <= 0 then 0 else (shortfall + l.refillPerS - 1) / l.refillPerS
  }

  class TokenBucket {
    const limits: Limits
    var tokensE9: int
    var last: int

    function View(): Level
      reads this
    {
      Level(tokensE9, last)
    }

    ghost predicate Valid()
      reads this
    {
      InRange(limits, View())
    }

    constructor (limits: Limits, now: int)
      requires limits.Valid()
      ensures Valid() && this.limits == limits && View() == Level(limits.capacity * NS_PER_S, now)
    {
      this.limits, tokensE9, last := limits, limits.capacity * NS_PER_S, now;
      new;
      CapacityIsPositive(limits);
    }

    method Refill(now: int)
      requires Valid()
      modifies this
      ensures Valid() && View() == Refilled(limits, old(View()), now)
    {
      RefillStaysInRange(limits, View(), now);
      var elapsed := now - last;
      if elapsed <= 0 {
        last := Max(last, now);
        return;
      }
      last := now;
      tokensE9 := Min(limits.capacity * NS_PER_S, tokensE9 + elapsed * limits.refillPerS);
    }

    method Tokens(now: int) returns (whole: int)
      requires Valid()
      modifies this
      ensures Valid() && View() == Refilled(limits, old(View()), now)
      ensures whole * NS_PER_S <= tokensE9 < (whole + 1) * NS_PER_S
    {
      Refill(now);
      whole := tokensE9 / NS_PER_S;
    }

    /** `None` stands for the error of a request that could never be met. */
    method TryTake(tokens: int, now: int) returns (ok: Option<bool>)
      requires Valid()
      modifies this
      ensures Valid() && (ok.None? <==> tokens <= 0 || tokens > limits.capacity)
      ensures View() == if ok.None? then old(View()) else Taken(limits, old(View()), tokens, now)
      ensures ok.Some? ==> ok.value == Affordable(limits, old(View()), tokens, now)
    {
      if tokens <= 0 || tokens > limits.capacity { return None; }
      Refill(now);
      var cost := tokens * NS_PER_S;
      if tokensE9 < cost { return Some(false); }
      tokensE9 := tokensE9 - cost;
      return Some(true);
    }

    method WaitNs(tokens: int, now: int) returns (ns: Option<int>)
      requires Valid()
      modifies this
      ensures Valid() && (ns.None? <==> tokens <= 0 || tokens > limits.capacity)
      ensures View() == if ns.None? then old(View()) else Refilled(limits, old(View()), now)
      ensures ns.Some? ==> ns.value == Wait(limits, old(View()), tokens, now)
    {
      if tokens <= 0 || tokens > limits.capacity { return None; }
      Refill(now);
      var shortfall := tokens * NS_PER_S - tokensE9;
      if shortfall <= 0 { return Some(0); }
      CeilingIs(shortfall, limits.refillPerS);
      ns := Some(-((-shortfall) / limits.refillPerS));
    }
  }

  /** Negating, dividing and negating again rounds up: division by a positive number floors. */
  lemma CeilingIs(shortfall: int, rate: int)
    requires rate > 0
    ensures -((-shortfall) / rate) == (shortfall + rate - 1) / rate
    ensures var c := (shortfall + rate - 1) / rate; (c - 1) * rate < shortfall <= c * rate
  {
    var q, c := (-shortfall) / rate, (shortfall + rate - 1) / rate;
    assert -shortfall == q * rate + (-shortfall) % rate;
    assert shortfall + rate - 1 == c * rate + (shortfall + rate - 1) % rate;
    Spaced(rate, c, -q);
    Spaced(rate, -q, c);
    assert (-q) * rate == -(q * rate);
  }

  lemma Spaced(rate: int, x: int, y: int)
    requires rate > 0
    ensures x < y ==> x * rate + rate <= y * rate
  {
    if x < y {
      var d := y - x;
      assert (d - 1) * rate >= 0;
      assert d * rate == (d - 1) * rate + rate;
      assert y * rate == x * rate + d * rate;
    }
  }

  lemma CapacityIsPositive(l: Limits)
    requires l.Valid()
    ensures 0 < l.capacity * NS_PER_S
  {
  }

  lemma RefillStaysInRange(l: Limits, b: Level, now: int)
    requires InRange(l, b)
    ensures InRange(l, Refilled(l, b, now)) && Refilled(l, b, now).last == Max(b.last, now)
    ensures Refilled(l, b, now).tokensE9 >= b.tokensE9
  {
    if now > b.last { assert (now - b.last) * l.refillPerS >= 0; }
  }

  // ------------------------------------------------------------------ over a run

  datatype Call = Look(now: int) | Take(tokens: int, now: int)

  ghost predicate Allowed(l: Limits, c: Call) {
    c.Take? ==> 0 < c.tokens <= l.capacity
  }

  ghost function After(l: Limits, b: Level, c: Call): Level {
    match c
    case Look(now) => Refilled(l, b, now)
    case Take(tokens, now) => Taken(l, b, tokens, now)
  }

  ghost function Granted(l: Limits, b: Level, c: Call): int {
    if c.Take? && Affordable(l, b, c.tokens, c.now) then c.tokens else 0
  }

  ghost function Ran(l: Limits, b: Level, calls: seq<Call>): Level {
    if calls == [] then b else After(l, Ran(l, b, calls[..|calls| - 1]), calls[|calls| - 1])
  }

  ghost function GrantedAll(l: Limits, b: Level, calls: seq<Call>): int {
    if calls == [] then 0 else
      var init := calls[..|calls| - 1];
      GrantedAll(l, b, init) + Granted(l, Ran(l, b, init), calls[|calls| - 1])
  }

  /** What a run granted, what it left and what was there at first differ by no more than the refill of the
      time that passed. */
  lemma {:induction false} RunIsBounded(l: Limits, b: Level, calls: seq<Call>)
    requires InRange(l, b) && forall i :: 0 <= i < |calls| ==> Allowed(l, calls[i])
    ensures InRange(l, Ran(l, b, calls)) && Ran(l, b, calls).last >= b.last
    ensures GrantedAll(l, b, calls) * NS_PER_S + Ran(l, b, calls).tokensE9 <= b.tokensE9
            + (Ran(l, b, calls).last - b.last) * l.refillPerS
  {
    if calls != [] {
      var init, c := calls[..|calls| - 1], calls[|calls| - 1];
      RunIsBounded(l, b, init);
      var mid := Ran(l, b, init);
      RefillStaysInRange(l, mid, c.now);
      RefillAdds(l, mid, c.now);
      Distribute(l.refillPerS, mid.last - b.last, Refilled(l, mid, c.now).last - mid.last);
    }
  }

  lemma Distribute(rate: int, x: int, y: int)
    ensures x * rate + y * rate == (x + y) * rate
  {
  }

  lemma RefillAdds(l: Limits, b: Level, now: int)
    requires InRange(l, b)
    ensures var r := Refilled(l, b, now); r.tokensE9 <= b.tokensE9 + (r.last - b.last) * l.refillPerS
  {
  }

  /** Between two moments of any run, whatever the clock did, the tokens granted are at most the capacity
      and the refill of the time elapsed, exactly, in billionths. */
  lemma GrantsAreBounded(l: Limits, start: int, before: seq<Call>, calls: seq<Call>)
    requires l.Valid() && forall i :: 0 <= i < |before| ==> Allowed(l, before[i])
    requires forall i :: 0 <= i < |calls| ==> Allowed(l, calls[i])
    ensures var b := Ran(l, Level(l.capacity * 1_000_000_000, start), before);
            GrantedAll(l, b, calls) * 1_000_000_000 <= l.capacity * 1_000_000_000
                + (Ran(l, b, calls).last - b.last) * l.refillPerS
  {
    CapacityIsPositive(l);
    var b := Ran(l, Level(l.capacity * NS_PER_S, start), before);
    RunIsBounded(l, Level(l.capacity * NS_PER_S, start), before);
    FromThere(l, b, calls);
  }

  lemma FromThere(l: Limits, b: Level, calls: seq<Call>)
    requires InRange(l, b) && forall i :: 0 <= i < |calls| ==> Allowed(l, calls[i])
    ensures GrantedAll(l, b, calls) * NS_PER_S <= l.capacity * NS_PER_S
            + (Ran(l, b, calls).last - b.last) * l.refillPerS
  {
    RunIsBounded(l, b, calls);
  }

  /** The bucket is not full when the call comes, nor does the refill until then fill it to overflowing. */
  ghost predicate Holds(l: Limits, b: Level, now: int) {
    b.tokensE9 + Max(0, now - b.last) * l.refillPerS <= l.capacity * 1_000_000_000
  }

  ghost predicate NeverOverflows(l: Limits, b: Level, calls: seq<Call>) {
    forall n :: 0 <= n < |calls| ==> Holds(l, Ran(l, b, calls[..n]), calls[n].now)
  }

  lemma CallIsExact(l: Limits, b: Level, c: Call)
    requires InRange(l, b) && Allowed(l, c) && Holds(l, b, c.now)
    ensures After(l, b, c).tokensE9 + Granted(l, b, c) * 1_000_000_000
            == b.tokensE9 + (After(l, b, c).last - b.last) * l.refillPerS
    ensures After(l, b, c).last == Max(b.last, c.now)
  {
  }

  lemma OverflowsNot(l: Limits, b: Level, calls: seq<Call>)
    requires NeverOverflows(l, b, calls) && calls != []
    ensures var init := calls[..|calls| - 1];
            NeverOverflows(l, b, init) && Holds(l, Ran(l, b, init), calls[|calls| - 1].now)
  {
    var init := calls[..|calls| - 1];
    assert Holds(l, Ran(l, b, calls[..|calls| - 1]), calls[|calls| - 1].now);
    forall n | 0 <= n < |init| ensures Holds(l, Ran(l, b, init[..n]), init[n].now) {
      assert init[..n] == calls[..n] && init[n] == calls[n];
    }
  }

  lemma RunStaysInRange(l: Limits, b: Level, calls: seq<Call>)
    requires InRange(l, b) && forall i :: 0 <= i < |calls| ==> Allowed(l, calls[i])
    ensures InRange(l, Ran(l, b, calls))
  {
    RunIsBounded(l, b, calls);
  }

  /** Between two levels, what was granted and what is left are what was there and the refill. */
  ghost predicate Exact(l: Limits, a: Level, b: Level, granted: int) {
    b.tokensE9 + granted * 1_000_000_000 == a.tokensE9 + (b.last - a.last) * l.refillPerS
  }

  lemma ExactStep(l: Limits, a: Level, b: Level, c: Call, granted: int)
    requires InRange(l, b) && Allowed(l, c) && Holds(l, b, c.now) && Exact(l, a, b, granted)
    ensures Exact(l, a, After(l, b, c), granted + Granted(l, b, c))
  {
    var d := After(l, b, c);
    CallIsExact(l, b, c);
    Distribute(l.refillPerS, b.last - a.last, d.last - b.last);
  }

  lemma ExactAtFirst(l: Limits, b: Level)
    ensures Exact(l, b, b, 0)
  {
  }

  lemma RanSnoc(l: Limits, b: Level, init: seq<Call>, c: Call)
    ensures Ran(l, b, init + [c]) == After(l, Ran(l, b, init), c)
    ensures GrantedAll(l, b, init + [c]) == GrantedAll(l, b, init) + Granted(l, Ran(l, b, init), c)
  {
    assert (init + [c])[..|init|] == init;
  }

  /** Nothing is lost either: while the bucket never overflows, what is left and what was granted are exactly what was
      there and what the time that passed refilled. */
  lemma {:induction false} NothingIsWasted(l: Limits, b: Level, calls: seq<Call>)
    requires InRange(l, b) && NeverOverflows(l, b, calls)
    requires forall i :: 0 <= i < |calls| ==> Allowed(l, calls[i])
    ensures Exact(l, b, Ran(l, b, calls), GrantedAll(l, b, calls))
  {
    if calls == [] {
      ExactAtFirst(l, b);
    } else {
      var init, c := calls[..|calls| - 1], calls[|calls| - 1];
      OverflowsNot(l, b, calls);
      RunStaysInRange(l, b, init);
      NothingIsWasted(l, b, init);
      ExactStep(l, b, Ran(l, b, init), c, GrantedAll(l, b, init));
      RanSnoc(l, b, init, c);
      assert calls == init + [c];
    }
  }

  /** An overflowing bucket is full, and no fuller. */
  lemma OverflowFills(l: Limits, b: Level, now: int)
    requires InRange(l, b) && !Holds(l, b, now)
    ensures Refilled(l, b, now) == Level(l.capacity * 1_000_000_000, now)
  {
  }

  /** The wait is the least number of nanoseconds whose refill covers the shortfall. */
  lemma WaitCovers(l: Limits, b: Level, tokens: int, now: int)
    requires InRange(l, b) && 0 < tokens <= l.capacity
    ensures var r := Refilled(l, b, now); var w := Wait(l, b, tokens, now);
            && w >= 0 && (w == 0 <==> r.tokensE9 >= tokens * NS_PER_S)
            && (w > 0 ==> r.tokensE9 + (w - 1) * l.refillPerS < tokens * NS_PER_S <= r.tokensE9 + w * l.refillPerS)
  {
    var shortfall := tokens * NS_PER_S - Refilled(l, b, now).tokensE9;
    if shortfall > 0 { CeilingIs(shortfall, l.refillPerS); }
  }

  /** Waiting exactly as long as told makes the take succeed, and one nanosecond less makes it fail, when the
      clock read no less than it had before. */
  lemma WaitIsExact(l: Limits, b: Level, tokens: int, now: int)
    requires InRange(l, b) && 0 < tokens <= l.capacity && now >= b.last
    ensures var r := Refilled(l, b, now); var w := Wait(l, b, tokens, now);
            Affordable(l, r, tokens, now + w) && (w > 0 ==> !Affordable(l, r, tokens, now + w - 1))
  {
    WaitCovers(l, b, tokens, now);
    RefillStaysInRange(l, b, now);
    assert tokens * NS_PER_S <= l.capacity * NS_PER_S;
  }

  /** A clock that had read later spoils it: told to wait at all, the wait suffices if and only if the clock
      reads no less than it had before. */
  lemma WaitSufficesIff(l: Limits, b: Level, tokens: int, now: int)
    requires InRange(l, b) && 0 < tokens <= l.capacity && Wait(l, b, tokens, now) > 0
    ensures Affordable(l, Refilled(l, b, now), tokens, now + Wait(l, b, tokens, now)) <==> now >= b.last
  {
    if now >= b.last {
      WaitIsExact(l, b, tokens, now);
    } else {
      var w := Wait(l, b, tokens, now);
      WaitCovers(l, b, tokens, now);
      Late(l.refillPerS, now + w - b.last, w - 1);
    }
  }

  lemma Late(rate: int, x: int, y: int)
    requires rate > 0 && x <= y
    ensures x * rate <= y * rate
  {
  }

  /** A clock that goes backwards neither adds nor removes tokens. */
  lemma BackwardsChangesNothing(l: Limits, b: Level, now: int, tokens: int)
    requires now <= b.last
    ensures Refilled(l, b, now) == b && (Affordable(l, b, tokens, now) <==> b.tokensE9 >= tokens * NS_PER_S)
  {
  }
}
