/**
 Orders of the step ids 1..n.

 `IsOrder` is the test the client makes: the length, the range, no repeat. What
 the test is for, that the list is 1..n rearranged, is `OrderIffRearrangement`.
 */
module Permutations {

  /** The ids 1..n in ascending order. */
  function Ids(n: nat): (r: seq<int>)
    ensures |r| == n
    ensures forall i :: 0 <= i < n ==> r[i] == i + 1
  {
    seq(n, i => i + 1)
  }

  predicate InRange(p: seq<int>, n: nat) {
    forall i :: 0 <= i < |p| ==> 1 <= p[i] <= n
  }

  predicate DifferAt<T(==)>(p: seq<T>, i: nat, j: nat)
    requires i < |p| && j < |p|
  {
    p[i] != p[j]
  }

  predicate Distinct<T(==)>(p: seq<T>) {
    forall i, j :: 0 <= i < j < |p| ==> DifferAt(p, i, j)
  }

  predicate IsOrder(p: seq<int>, n: nat) {
    |p| == n && InRange(p, n) && Distinct(p)
  }

  lemma {:induction false} CardinalityOfDistinct(p: seq<int>)
    requires Distinct(p)
    ensures |set x | x in p| == |p|
  {
    if p != [] {
      var last := |p| - 1;
      var rest := p[..last];
      forall i, j | 0 <= i < j < |rest| ensures DifferAt(rest, i, j) { assert DifferAt(p, i, j); }
      CardinalityOfDistinct(rest);
      assert (set x | x in p) == (set x | x in rest) + {p[last]} by {
        assert p == rest + [p[last]];
      }
      forall i | 0 <= i < last ensures rest[i] != p[last] { assert DifferAt(p, i, last); }
    }
  }

  /** The pigeonhole: n distinct ids in 1..n leave none out. */
  lemma OrderCovers(p: seq<int>, n: nat, x: int)
    requires IsOrder(p, n)
    ensures 1 <= x <= n <==> x in p
  {
    if 1 <= x <= n && x !in p {
      var all, have := set y | y in Ids(n), set y | y in p;
      IdsIsOrder(n);
      CardinalityOfDistinct(Ids(n));
      CardinalityOfDistinct(p);
      forall y | y in p + [x] ensures y in all { assert Ids(n)[y - 1] == y; }
      assert have + {x} <= all;
      SubsetIsSmaller(have + {x}, all);
    }
  }

  lemma IdsIsOrder(n: nat)
    ensures IsOrder(Ids(n), n)
  {
    forall i, j | 0 <= i < j < n ensures DifferAt(Ids(n), i, j) { }
  }

  lemma SubsetIsSmaller(a: set<int>, b: set<int>)
    requires a <= b
    ensures |a| <= |b|
  {
    assert b == a + (b - a);
  }

  lemma {:induction false} DistinctCounts<T>(p: seq<T>, x: T)
    requires Distinct(p)
    ensures multiset(p)[x] == if x in p then 1 else 0
  {
    if p != [] {
      var last := |p| - 1;
      var rest := p[..last];
      forall i, j | 0 <= i < j < |rest| ensures DifferAt(rest, i, j) { assert DifferAt(p, i, j); }
      DistinctCounts(rest, x);
      assert p == rest + [p[last]];
      forall i | 0 <= i < last ensures rest[i] != p[last] { assert DifferAt(p, i, last); }
    }
  }

  lemma RepeatCounts<T>(p: seq<T>, i: nat, j: nat)
    requires i < j < |p| && p[i] == p[j]
    ensures multiset(p)[p[i]] >= 2
  {
    assert p == p[..j] + [p[j]] + p[j + 1..];
    assert p[i] in p[..j];
  }

  /** The test accepts exactly the rearrangements of 1..n. */
  lemma OrderIffRearrangement(p: seq<int>, n: nat)
    ensures IsOrder(p, n) <==> multiset(p) == multiset(Ids(n))
  {
    var ids := Ids(n);
    IdsIsOrder(n);
    if IsOrder(p, n) {
      forall x ensures multiset(p)[x] == multiset(ids)[x] {
        DistinctCounts(p, x);
        DistinctCounts(ids, x);
        OrderCovers(p, n, x);
        OrderCovers(ids, n, x);
      }
    }
    if multiset(p) == multiset(ids) {
      assert |p| == |multiset(p)| == |multiset(ids)| == n;
      forall i | 0 <= i < |p| ensures 1 <= p[i] <= n {
        assert p[i] in multiset(p);
      }
      forall i, j | 0 <= i < j < |p| ensures DifferAt(p, i, j) {
        if p[i] == p[j] {
          RepeatCounts(p, i, j);
          DistinctCounts(ids, p[i]);
        }
      }
    }
  }

  /** An id of an order stands in one place only. */
  lemma OnePlace(p: seq<int>, n: nat, i: nat, j: nat)
    requires IsOrder(p, n) && i < n && j < n && p[i] == p[j]
    ensures i == j
  {
    assert i < j ==> DifferAt(p, i, j);
    assert j < i ==> DifferAt(p, j, i);
  }

  predicate FirstAt<T(==)>(s: seq<T>, x: T, i: nat) {
    i < |s| && s[i] == x && forall k :: 0 <= k < i ==> s[k] != x
  }

  lemma {:induction false} FirstExists<T>(s: seq<T>, x: T)
    requires x in s
    ensures exists i: nat :: FirstAt(s, x, i)
  {
    if s[0] == x {
      assert FirstAt(s, x, 0);
    } else {
      FirstExists(s[1..], x);
      var i: nat :| FirstAt(s[1..], x, i);
      assert forall k :: 0 < k < i + 1 ==> s[k] == s[1..][k - 1];
      assert FirstAt(s, x, i + 1);
    }
  }

  /** The first index of x, as slices.Index finds it. */
  function IndexOf<T(==)>(s: seq<T>, x: T): (i: nat)
    requires x in s
    ensures i < |s| && s[i] == x
  {
    FirstExists(s, x);
    var i: nat :| FirstAt(s, x, i);
    i
  }

  /** Where the id x ended up, counted from 1; 0 for an id the order lacks,
      as a Go map lookup answers it. */
  function Position(order: seq<int>, x: int): (at: nat)
    ensures at <= |order|
    ensures at > 0 ==> order[at - 1] == x
  {
    if x in order then IndexOf(order, x) + 1 else 0
  }

  /** Position is an order's inverse. */
  lemma PositionOf(order: seq<int>, n: nat, i: nat)
    requires IsOrder(order, n) && i < n
    ensures Position(order, order[i]) == i + 1
  {
    OnePlace(order, n, i, IndexOf(order, order[i]));
  }

  lemma PositionInRange(order: seq<int>, n: nat, x: int)
    requires IsOrder(order, n)
    ensures Position(order, x) > 0 <==> 1 <= x <= n
  {
    OrderCovers(order, n, x);
  }

  lemma PositionInIds(n: nat, x: int)
    ensures Position(Ids(n), x) == if 1 <= x <= n then x else 0
  {
    if 1 <= x <= n { assert Ids(n)[x - 1] == x; }
  }

  /** slices.Delete of one element. */
  function RemoveAt<T>(s: seq<T>, at: nat): seq<T>
    requires at < |s|
  {
    s[..at] + s[at + 1..]
  }

  /** slices.Insert of one element. */
  function InsertAt<T>(s: seq<T>, at: nat, x: T): seq<T>
    requires at <= |s|
  {
    s[..at] + [x] + s[at..]
  }

  /** Which element of the old list stands at i once the one at `from` has been
      taken out and put back at `to`. */
  function MoveIndex(from: int, to: int, i: int): int {
    if i < to || i > from then i else if i == to then from else i - 1
  }

  /** One element taken out and put back earlier. */
  function Relocate<T>(s: seq<T>, from: nat, to: nat): (r: seq<T>)
    requires to <= from < |s|
    ensures |r| == |s|
    ensures forall i :: 0 <= i < |r| ==> r[i] == s[MoveIndex(from, to, i)]
  {
    seq(|s|, i requires 0 <= i < |s| => s[MoveIndex(from, to, i)])
  }

  /** ... which is what a delete followed by an insert makes. */
  lemma RelocateIsDeleteInsert<T>(s: seq<T>, from: nat, to: nat)
    requires to <= from < |s|
    ensures InsertAt(RemoveAt(s, from), to, s[from]) == Relocate(s, from, to)
  {
  }

  lemma RelocateIsOrder(p: seq<int>, n: nat, from: nat, to: nat)
    requires IsOrder(p, n) && to <= from < n
    ensures IsOrder(Relocate(p, from, to), n)
  {
    var r := Relocate(p, from, to);
    forall i, j | 0 <= i < j < n ensures DifferAt(r, i, j) {
      if r[i] == r[j] { OnePlace(p, n, MoveIndex(from, to, i), MoveIndex(from, to, j)); }
    }
  }

  /** first, then second applied to the result: position i of the outcome holds
      the id that `first` put where `second` reads. */
  function Compose(first: seq<int>, second: seq<int>): (r: seq<int>)
    requires InRange(second, |first|)
    ensures |r| == |second|
    ensures forall i :: 0 <= i < |second| ==> r[i] == first[second[i] - 1]
  {
    seq(|second|, i requires 0 <= i < |second| => first[second[i] - 1])
  }

  lemma ComposeIsOrder(first: seq<int>, second: seq<int>, n: nat)
    requires IsOrder(first, n) && IsOrder(second, n)
    ensures IsOrder(Compose(first, second), n)
  {
    var r := Compose(first, second);
    forall i, j | 0 <= i < j < n ensures DifferAt(r, i, j) {
      if r[i] == r[j] {
        OnePlace(first, n, second[i] - 1, second[j] - 1);
        OnePlace(second, n, i, j);
      }
    }
  }

  lemma PositionOfCompose(first: seq<int>, second: seq<int>, n: nat, x: int)
    requires IsOrder(first, n) && IsOrder(second, n)
    ensures Position(Compose(first, second), x) == Position(second, Position(first, x))
  {
    ComposeIsOrder(first, second, n);
    var both := Compose(first, second);
    PositionInRange(first, n, x);
    PositionInRange(both, n, x);
    PositionInRange(second, n, Position(first, x));
    if 1 <= x <= n {
      var outer := Position(second, Position(first, x));
      assert both[outer - 1] == x;
      PositionOf(both, n, outer - 1);
    }
  }
}
