/**
  `ORDER BY <distance> DESC` over rows whose sort key may be NULL. PostgreSQL
  puts NULL keys first in a descending sort and larger keys before smaller
  ones; among equal keys its order is unspecified, and the stable insertion
  sort below is one admissible choice.
*/
module Ranking {
  import opened Values

  /** A result row together with the value it is sorted by. */
  datatype Ranked<T> = Ranked(key: Option<real>, value: T)

  /** `a` may come before `b` in a descending sort with NULLs first. */
  predicate Precedes(a: Option<real>, b: Option<real>) {
    a.None? || (b.Some? && a.value >= b.value)
  }

  predicate SortedDesc<T>(s: seq<Ranked<T>>) {
    forall i, j | 0 <= i < j < |s| :: Precedes(s[i].key, s[j].key)
  }

  /** The result rows without their sort keys. */
  function Unranked<T>(s: seq<Ranked<T>>): (r: seq<T>)
    ensures |r| == |s| && forall i | 0 <= i < |s| :: r[i] == s[i].value
  {
    seq(|s|, i requires 0 <= i < |s| => s[i].value)
  }

  lemma UnrankedAppend<T>(a: seq<Ranked<T>>, b: seq<Ranked<T>>)
    ensures Unranked(a + b) == Unranked(a) + Unranked(b)
  {
  }

  /** Putting one row in front of others, with and without sort keys. */
  lemma Cons<T>(a: Ranked<T>, s: seq<Ranked<T>>)
    ensures Unranked([a] + s) == [a.value] + Unranked(s)
    ensures multiset([a] + s) == multiset{a} + multiset(s)
    ensures multiset(Unranked([a] + s)) == multiset{a.value} + multiset(Unranked(s))
  {
    assert Unranked([a] + s) == [a.value] + Unranked(s);
  }

  lemma Uncons<T>(s: seq<Ranked<T>>)
    requires s != []
    ensures multiset(s) == multiset{s[0]} + multiset(s[1..])
    ensures multiset(Unranked(s)) == multiset{s[0].value} + multiset(Unranked(s[1..]))
  {
    assert s == [s[0]] + s[1..];
    Cons(s[0], s[1..]);
  }

  function Insert<T>(x: Ranked<T>, s: seq<Ranked<T>>): (r: seq<Ranked<T>>)
    ensures |r| == |s| + 1
    ensures forall y | y in r :: y == x || y in s
    ensures multiset(r) == multiset(s) + multiset{x}
    ensures multiset(Unranked(r)) == multiset(Unranked(s)) + multiset{x.value}
    decreases |s|
  {
    if s == [] then
      Cons(x, s);
      [x]
    else if Precedes(x.key, s[0].key) then
      Cons(x, s);
      [x] + s
    else
      var rest := Insert(x, s[1..]);
      Cons(s[0], rest);
      Uncons(s);
      [s[0]] + rest
  }

  /** Stable insertion sort by descending key, NULL keys first. */
  function Sort<T>(s: seq<Ranked<T>>): (r: seq<Ranked<T>>)
    ensures |r| == |s|
    ensures multiset(r) == multiset(s)
    ensures multiset(Unranked(r)) == multiset(Unranked(s))
    decreases |s|
  {
    if s == [] then []
    else
      Uncons(s);
      Insert(s[0], Sort(s[1..]))
  }

  lemma {:induction false} InsertSorted<T>(x: Ranked<T>, s: seq<Ranked<T>>)
    requires SortedDesc(s)
    ensures SortedDesc(Insert(x, s))
    decreases |s|
  {
    if s != [] && !Precedes(x.key, s[0].key) {
      var rest := Insert(x, s[1..]);
      InsertSorted(x, s[1..]);
      forall y | y in rest ensures Precedes(s[0].key, y.key) {
        if y != x {
          var k :| 1 <= k < |s| && s[k] == y;
        }
      }
      var r := [s[0]] + rest;
      forall i, j | 0 <= i < j < |r| ensures Precedes(r[i].key, r[j].key) {
        if i == 0 {
          assert r[j] in rest;
        } else {
          assert r[i] == rest[i - 1] && r[j] == rest[j - 1];
        }
      }
    }
  }

  /**
    The sort orders by descending key with NULLs first and is a permutation
    of its input: every row keeps the key it came with.
  */
  lemma {:induction false} SortSorted<T>(s: seq<Ranked<T>>)
    ensures SortedDesc(Sort(s))
    ensures multiset(Sort(s)) == multiset(s)
    ensures multiset(Unranked(Sort(s))) == multiset(Unranked(s))
    decreases |s|
  {
    if s != [] {
      SortSorted(s[1..]);
      InsertSorted(s[0], Sort(s[1..]));
    }
  }
}
