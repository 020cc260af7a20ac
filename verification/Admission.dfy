/** What a decision admits, market by market: `select` of `src/tape/recorder/universe.py`. */
module Admission {
  import opened Prelude
  import opened Counts
  import opened Universe
  import opened Ranking

  // ------------------------------------------------------------------ which markets are eligible

  /** An active market, no leg of a multivariate if those are excluded, whose close is unknown or ahead and not too
      far. */
  ghost predicate MayBeAdmitted(m: Market, p: Policy, now: int) {
    && m.status == Key(1)
    && !(p.excludeMve && m.mve)
    && (m.close.Some? ==> m.close.value > now)
    && (m.close.Some? && p.maxSeconds.Some? ==> m.close.value <= now + p.maxSeconds.value)
  }

  /** The filters in their order: each reason is the first that applies. */
  lemma RejectionMeans(m: Market, p: Policy, now: int)
    ensures Rejection(m, p, now) == None <==> MayBeAdmitted(m, p, now)
    ensures Rejection(m, p, now) == Some(NotActive) <==> m.status != Key(1)
    ensures Rejection(m, p, now) == Some(Multivariate) <==> m.status == Key(1) && p.excludeMve && m.mve
    ensures Rejection(m, p, now) == Some(Closed) <==>
              m.status == Key(1) && !(p.excludeMve && m.mve) && m.close.Some? && m.close.value <= now
    ensures Rejection(m, p, now) == Some(BeyondHorizon) <==>
              && m.status == Key(1) && !(p.excludeMve && m.mve) && m.close.Some? && m.close.value > now
              && p.maxSeconds.Some? && m.close.value > now + p.maxSeconds.value
  {
  }

  /** The group's own series, or the series of its category. */
  ghost predicate InSelector(g: Group, m: Market, categories: Categories) {
    (g.selector.BySeries? ==> m.series in g.selector.series)
    && (g.selector.ByCategory? ==> m.series in categories && categories[m.series] == g.selector.category)
  }

  // ------------------------------------------------------------------ one run of the groups

  ghost predicate Showcased(st: State, p: Policy, n: nat, t: Ticker)
    requires n <= |p.groups| && n <= |st.selections|
  {
    exists i: nat :: i < n && p.groups[i].selector.BySeries? && t in st.selections[i].tickers
  }

  lemma {:induction false} RunShowcases(
      eligible: set<Ticker>, p: Policy, states: seq<State>, choices: seq<seq<Ticker>>, n: nat, t: Ticker)
    requires IsRun(eligible, p, states, choices) && n < |states|
    ensures |states[n].selections| == n && (t in states[n].showcase <==> Showcased(states[n], p, n, t))
  {
    if n > 0 {
      RunShowcases(eligible, p, states, choices, n - 1, t);
      StepOf(eligible, p, states, choices, n - 1);
      GrantShowcases(states[n - 1], p, n - 1, choices[n - 1], states[n].passed, t);
    }
  }

  lemma GrantShowcases(st: State, p: Policy, n: nat, chosen: seq<Ticker>, passed: map<Ticker, Reason>, t: Ticker)
    requires n < |p.groups| && |st.selections| == n && (t in st.showcase <==> Showcased(st, p, n, t))
    ensures var next := Granted(st, p.groups[n], chosen, passed);
            |next.selections| == n + 1 && (t in next.showcase <==> Showcased(next, p, n + 1, t))
  {
    var next := Granted(st, p.groups[n], chosen, passed);
    assert next.selections[n].tickers == Top(chosen, st.budget);
    assert forall i: nat :: i < n ==> next.selections[i] == st.selections[i];
  }

  /** How many markets the selections left out for budget. */
  function SkippedIn(selections: seq<Selection>): nat {
    if selections == [] then 0 else SkippedIn(selections[..|selections| - 1]) + selections[|selections| - 1].skipped
  }

  /** Selections skip what they name, and nothing is skipped while there is budget. */
  ghost predicate SkipsWell(st: State) {
    st.skipped == SkippedIn(st.selections) && (st.skipped > 0 ==> st.budget == 0)
  }

  lemma {:induction false} RunSkipsWell(
      eligible: set<Ticker>, p: Policy, states: seq<State>, choices: seq<seq<Ticker>>, n: nat)
    requires IsRun(eligible, p, states, choices) && n < |states|
    ensures SkipsWell(states[n])
  {
    if n > 0 {
      RunSkipsWell(eligible, p, states, choices, n - 1);
      StepOf(eligible, p, states, choices, n - 1);
      GrantSkipsWell(states[n - 1], p.groups[n - 1], choices[n - 1], states[n].passed);
    }
  }

  lemma GrantSkipsWell(st: State, g: Group, chosen: seq<Ticker>, passed: map<Ticker, Reason>)
    requires SkipsWell(st)
    ensures SkipsWell(Granted(st, g, chosen, passed))
  {
    var next := Granted(st, g, chosen, passed);
    assert next.selections[..|st.selections|] == st.selections;
  }

  // ------------------------------------------------------------------ the decision

  /** Every admitted market passed the filters, on the copy of it that is kept. */
  lemma AdmittedAreEligible(ms: seq<Market>, x: Setting, t: Ticker)
    requires ValidSetting(x) && t in Selecting(ms, x).groupOf
    ensures t in Newest(ms) && MayBeAdmitted(Newest(ms)[t], x.policy, x.now)
  {
    BudgetHolds(Newest(ms), x);
    assert t in StateAfter(Newest(ms), x, |x.policy.groups|).groupOf.Keys;
    RejectionMeans(Newest(ms)[t], x.policy, x.now);
  }

  lemma ChosenAreSelected(listed: Listing, unchosen: set<Ticker>, g: Group, x: Setting, n: nat, t: Ticker)
    requires unchosen <= listed.Keys && ValidGroup(g) && g.name !in x.pinned
    requires t in Top(ChosenBy(listed, unchosen, g, x), n)
    ensures t in listed && InSelector(g, listed[t], x.categories)
  {
    var ts := Candidates(listed, unchosen, g, x.categories);
    var chosen := Choose(listed, ts, g, x.policy.minVolume, x.now);
    ChosenAre(listed, ts, g, x.policy.minVolume, x.now);
    assert Top(chosen, n) <= chosen;
    var j: nat :| j < |chosen| && chosen[j] == t;
    assert t in ts;
  }

  /** A group that is applied admits only markets of its selector. */
  lemma AdmittedAreSelected(ms: seq<Market>, x: Setting, i: nat, t: Ticker)
    requires ValidSetting(x) && i < |x.policy.groups| && x.policy.groups[i].name !in x.pinned
    ensures var d := Selecting(ms, x);
            |d.selections| == |x.policy.groups|
            && (t in d.selections[i].tickers ==>
                  t in Newest(ms) && InSelector(x.policy.groups[i], Newest(ms)[t], x.categories))
  {
    var listed, before := Newest(ms), StateAfter(Newest(ms), x, i);
    SelectionIs(listed, x, i);
    if t in AdmittedAt(listed, x, i) {
      ChosenAreSelected(listed, before.unchosen, x.policy.groups[i], x, before.budget, t);
    }
  }

  /** The showcase is what series groups admitted. */
  lemma ShowcaseIs(ms: seq<Market>, x: Setting, t: Ticker)
    requires ValidSetting(x)
    ensures var d := Selecting(ms, x);
            |d.selections| == |x.policy.groups|
            && (t in d.showcase <==> exists i: nat ::
                  i < |x.policy.groups| && x.policy.groups[i].selector.BySeries? && t in d.selections[i].tickers)
  {
    var listed, n := Newest(ms), |x.policy.groups|;
    TheRun(listed, x);
    RunShowcases(Eligible(listed, x.policy, x.now), x.policy, StatesOf(listed, x), ChoicesOf(listed, x), n, t);
    assert StatesOf(listed, x)[n] == StateAfter(listed, x, n);
  }

  lemma NoneIsOverCap(listed: Listing, x: Setting, st: State)
    requires st.unchosen <= listed.Keys && GroupReasons(st.passed)
    ensures |LeftFor(st.unchosen, st.passed, OverCap)| == 0
    ensures |RejectedFor(listed.Keys, listed, x.policy, x.now, OverCap)| == 0
  {
    assert LeftFor(st.unchosen, st.passed, OverCap) == {};
    assert RejectedFor(listed.Keys, listed, x.policy, x.now, OverCap) == {};
  }

  /** What is dropped is what the selections skip, and nothing is skipped unless the admitted fill the budget. */
  lemma DroppedIs(ms: seq<Market>, x: Setting)
    requires ValidSetting(x)
    ensures var d := Selecting(ms, x);
            && d.dropped == SkippedIn(d.selections) && |d.groupOf.Keys| <= x.policy.budget
            && (d.dropped > 0 ==> |d.groupOf.Keys| == x.policy.budget)
  {
    var listed, n := Newest(ms), |x.policy.groups|;
    TheRun(listed, x);
    RunSkipsWell(Eligible(listed, x.policy, x.now), x.policy, StatesOf(listed, x), ChoicesOf(listed, x), n);
    var st := StatesOf(listed, x)[n];
    assert st == StateAfter(listed, x, n);
    StatesGroupReasons(listed, x);
    NoneIsOverCap(listed, x, st);
    CountIs(ms, x, OverCap);
    BudgetHolds(listed, x);
  }

  lemma {:induction false} MarketsInAre(order: seq<Ticker>, listed: Listing, groupOf: map<Ticker, Key>)
    requires Known(listed, order) && Ascending(order) && OwnTickers(listed)
    ensures var markets := MarketsIn(order, listed, groupOf);
            && (forall m :: m in markets <==> m.ticker in order && m.ticker in groupOf && m == listed[m.ticker])
            && (forall i, j :: 0 <= i < j < |markets| ==> markets[i].ticker.rank < markets[j].ticker.rank)
  {
    if order != [] {
      var init, t := order[..|order| - 1], order[|order| - 1];
      var before := MarketsIn(init, listed, groupOf);
      MarketsInAre(init, listed, groupOf);
      assert order == init + [t];
      forall i | 0 <= i < |before| ensures before[i].ticker.rank < t.rank {
        assert before[i] in before;
      }
    }
  }

  /** The markets of the decision are the kept copies of the admitted ones, by ticker. */
  lemma MarketsAreTheAdmitted(ms: seq<Market>, x: Setting)
    requires ValidSetting(x)
    ensures var d := Selecting(ms, x);
            && (forall m :: m in d.markets <==>
                  m.ticker in d.groupOf && m.ticker in Newest(ms) && m == Newest(ms)[m.ticker])
            && (forall t :: t in d.groupOf ==> t in Newest(ms))
            && (forall i, j :: 0 <= i < j < |d.markets| ==> d.markets[i].ticker.rank < d.markets[j].ticker.rank)
  {
    var listed := Newest(ms);
    var d := Selecting(ms, x);
    SortedIsKnown(listed, listed.Keys);
    NewestHasOwnTickers(ms);
    MarketsInAre(Sorted(listed.Keys), listed, d.groupOf);
    forall t | t in d.groupOf ensures t in listed { AdmittedAreEligible(ms, x, t); }
  }
}
