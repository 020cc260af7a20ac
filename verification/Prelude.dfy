/** Small shared vocabulary: options, extrema of finite sets, and ascending listings.

    Tickers, prices and identifiers key dictionaries in the program, which compares and sorts them
    and does nothing else with them; each is a `Key` here, standing for its place in that order. */
module Prelude {

  datatype Key = Key(rank: int)

  type Ticker = Key
  type Price = Key

  datatype Option<+T> = None | Some(value: T)

  predicate IsMax(s: set<Key>, m: Key) {
    m in s && forall x :: x in s ==> x.rank <= m.rank
  }

  predicate IsMin(s: set<Key>, m: Key) {
    m in s && forall x :: x in s ==> m.rank <= x.rank
  }

  lemma {:induction false} MaxExists(s: set<Key>)
    requires s != {}
    ensures exists m :: IsMax(s, m)
    decreases |s|
  {
    var x :| x in s;
    var rest := s - {x};
    if rest == {} {
      assert forall y :: y in s ==> y == x || y in rest;
      assert IsMax(s, x);
    } else {
      MaxExists(rest);
      var m :| IsMax(rest, m);
      var best := if m.rank < x.rank then x else m;
      assert forall y :: y in s ==> y == x || y in rest;
      assert IsMax(s, best);
    }
  }

  lemma {:induction false} MinExists(s: set<Key>)
    requires s != {}
    ensures exists m :: IsMin(s, m)
    decreases |s|
  {
    var x :| x in s;
    var rest := s - {x};
    if rest == {} {
      assert forall y :: y in s ==> y == x || y in rest;
      assert IsMin(s, x);
    } else {
      MinExists(rest);
      var m :| IsMin(rest, m);
      var best := if m.rank < x.rank then m else x;
      assert forall y :: y in s ==> y == x || y in rest;
      assert IsMin(s, best);
    }
  }

  function MaxOf(s: set<Key>): (m: Key)
    requires s != {}
    ensures IsMax(s, m)
  {
    MaxExists(s);
    var m :| IsMax(s, m);
    m
  }

  function MinOf(s: set<Key>): (m: Key)
    requires s != {}
    ensures IsMin(s, m)
  {
    MinExists(s);
    var m :| IsMin(s, m);
    m
  }

  function Max(a: int, b: int): int { if a < b then b else a }

  function Min(a: int, b: int): int { if a < b then a else b }

  predicate Ascending(s: seq<Key>) {
    forall i, j :: 0 <= i < j < |s| ==> s[i].rank < s[j].rank
  }

  /** `r` lists the members of `s`, smallest first. */
  ghost predicate IsSorting(r: seq<Key>, s: set<Key>) {
    Ascending(r) && (forall x :: x in r <==> x in s) && |r| == |s|
  }

  lemma {:induction false} SortingExists(s: set<Key>)
    ensures exists r :: IsSorting(r, s)
    decreases |s|
  {
    if s == {} {
      assert IsSorting([], s);
    } else {
      var m := MinOf(s);
      SortingExists(s - {m});
      var rest :| IsSorting(rest, s - {m});
      assert forall i :: 0 <= i < |rest| ==> rest[i] in s - {m};
      assert IsSorting([m] + rest, s);
    }
  }

  lemma SortingTail(r: seq<Key>, s: set<Key>)
    requires IsSorting(r, s) && r != []
    ensures r[0] in s && (forall x :: x in s ==> r[0].rank <= x.rank)
    ensures IsSorting(r[1..], s - {r[0]}) && r == [r[0]] + r[1..]
  {
    var m, rest := r[0], r[1..];
    assert r == [m] + rest;
    assert forall x :: x in r <==> x == m || x in rest;
    assert forall i :: 0 <= i < |rest| ==> m.rank < rest[i].rank;
    assert Ascending(rest);
  }

  lemma {:induction false} SortingIsUnique(a: seq<Key>, b: seq<Key>, s: set<Key>)
    requires IsSorting(a, s) && IsSorting(b, s)
    ensures a == b
    decreases |a|
  {
    if a != [] {
      SortingTail(a, s);
      SortingTail(b, s);
      assert a[0] == b[0];
      SortingIsUnique(a[1..], b[1..], s - {a[0]});
    }
  }

  /** What `sorted(...)` gives for a set or for a dictionary's keys. */
  ghost function Sorted(s: set<Key>): (r: seq<Key>)
    ensures IsSorting(r, s)
  {
    SortingExists(s);
    assert forall a, b :: IsSorting(a, s) && IsSorting(b, s) ==> a == b by {
      forall a, b | IsSorting(a, s) && IsSorting(b, s) ensures a == b {
        SortingIsUnique(a, b, s);
      }
    }
    var r :| IsSorting(r, s);
    r
  }

  lemma SortingExtends(r: seq<Key>, done: set<Key>, m: Key)
    requires IsSorting(r, done) && forall x :: x in done ==> x.rank < m.rank
    ensures IsSorting(r + [m], done + {m})
  {
    forall i | 0 <= i < |r| ensures r[i].rank < m.rank {
      assert r[i] in r;
    }
  }

  method SortKeys(s: set<Key>) returns (r: seq<Key>)
    ensures r == Sorted(s)
  {
    var left := s;
    r := [];
    while left != {}
      invariant left <= s
      invariant forall x, y :: x in s - left && y in left ==> x.rank < y.rank
      invariant IsSorting(r, s - left)
      decreases |left|
    {
      var m := MinOf(left);
      SortingExtends(r, s - left, m);
      assert s - (left - {m}) == (s - left) + {m};
      forall y | y in left - {m} ensures m.rank < y.rank {
        assert y != m;
      }
      left := left - {m};
      r := r + [m];
    }
    assert s - left == s;
    SortingIsUnique(r, Sorted(s), s);
  }

  function Reverse<T>(s: seq<T>): (r: seq<T>)
    ensures |r| == |s|
    ensures forall i :: 0 <= i < |s| ==> r[i] == s[|s| - 1 - i]
  {
    seq(|s|, i requires 0 <= i < |s| => s[|s| - 1 - i])
  }

  predicate Distinct<T(==)>(s: seq<T>) {
    forall i, j :: 0 <= i < j < |s| ==> s[i] != s[j]
  }

  lemma PrefixGrows<T>(s: seq<T>, k: nat)
    requires k < |s|
    ensures s[..k + 1] == s[..k] + [s[k]]
  {
  }

  lemma Join<T>(a: seq<T>, b: seq<T>, c: seq<T>)
    ensures a + b + c == a + (b + c)
  {
  }

  lemma CountSnoc<T>(s: seq<T>, x: T, y: T)
    ensures multiset(s + [x])[y] == multiset(s)[y] + (if x == y then 1 else 0)
  {
  }

  function Elems<T>(s: seq<T>): set<T> {
    set x | x in s
  }

  lemma {:induction false} DistinctCount(ts: seq<Key>)
    requires Distinct(ts)
    ensures |Elems(ts)| == |ts|
  {
    if ts != [] {
      var init, t := ts[..|ts| - 1], ts[|ts| - 1];
      DistinctCount(init);
      assert ts == init + [t];
      assert t !in init;
      assert Elems(ts) == Elems(init) + {t};
    }
  }

  lemma Subset<T>(a: set<T>, b: set<T>)
    requires a <= b
    ensures |a| <= |b|
  {
    assert b == a + (b - a);
  }

  lemma {:induction false} ElemsAreFew<T>(s: seq<T>)
    ensures |Elems(s)| <= |s|
  {
    if s != [] {
      ElemsAreFew(s[..|s| - 1]);
      assert s == s[..|s| - 1] + [s[|s| - 1]];
      assert Elems(s) == Elems(s[..|s| - 1]) + {s[|s| - 1]};
    }
  }
}
