/** The stable sort by a numeric key that the simulator relies on for its workload, its waiting
    list and the placement of its chiplets. */
module Sorting {

  function Insert<T>(x: T, s: seq<T>, key: T -> real): seq<T> {
    if s == [] || key(x) <= key(s[0]) then [x] + s else [s[0]] + Insert(x, s[1..], key)
  }

  function SortBy<T>(s: seq<T>, key: T -> real): seq<T> {
    if s == [] then [] else Insert(s[0], SortBy(s[1..], key), key)
  }

  ghost predicate Ascending<T>(s: seq<T>, key: T -> real) {
    forall j, k | 0 <= j < k < |s| :: key(s[j]) <= key(s[k])
  }

  /** Ordered by the first key, and by the second among equals. */
  ghost predicate Lexicographic<T>(s: seq<T>, first: T -> real, second: T -> real) {
    forall j, k | 0 <= j < k < |s| :: LexAtMost(s[j], s[k], first, second)
  }

  ghost predicate LexAtMost<T>(x: T, y: T, first: T -> real, second: T -> real) {
    first(x) < first(y) || (first(x) == first(y) && second(x) <= second(y))
  }

  lemma {:induction false} InsertPermutes<T>(x: T, s: seq<T>, key: T -> real)
    ensures multiset(Insert(x, s, key)) == multiset(s) + multiset{x}
  {
    if s != [] {
      assert s == [s[0]] + s[1..];
      InsertPermutes(x, s[1..], key);
    }
  }

  lemma {:induction false} SortPermutes<T>(s: seq<T>, key: T -> real)
    ensures multiset(SortBy(s, key)) == multiset(s)
  {
    if s != [] {
      assert s == [s[0]] + s[1..];
      SortPermutes(s[1..], key);
      InsertPermutes(s[0], SortBy(s[1..], key), key);
    }
  }

  lemma PermutedMembers<T>(a: seq<T>, b: seq<T>)
    requires multiset(a) == multiset(b)
    ensures forall x | x in a :: x in b
    ensures forall x | x in b :: x in a
    ensures |a| == |b|
  {
    forall x | x in a ensures x in b { assert x in multiset(a); }
    forall x | x in b ensures x in a { assert x in multiset(b); }
    assert |multiset(a)| == |multiset(b)|;
  }

  /** Inserting an element that no equal key precedes keeps the lexicographic order. */
  lemma {:induction false} InsertOrdered<T>(x: T, s: seq<T>, first: T -> real, second: T -> real)
    requires Lexicographic(s, first, second)
    requires forall y | y in s :: second(x) <= second(y)
    ensures Lexicographic(Insert(x, s, first), first, second)
  {
    if s != [] && first(x) > first(s[0]) {
      InsertOrdered(x, s[1..], first, second);
      var r := Insert(x, s[1..], first);
      InsertPermutes(x, s[1..], first);
      forall k | 0 <= k < |r| ensures LexAtMost(s[0], r[k], first, second) {
        assert r[k] in multiset(s[1..]) + multiset{x};
        if r[k] != x {
          var m :| 0 <= m < |s[1..]| && s[1..][m] == r[k];
          assert LexAtMost(s[0], s[m + 1], first, second);
        }
      }
    } else if s != [] {
      forall k | 0 <= k < |s| ensures LexAtMost(x, s[k], first, second) {
        assert k > 0 ==> LexAtMost(s[0], s[k], first, second);
      }
    }
  }

  /** Sorting by one key and then stably by another orders by the pair: the second sort keeps the
      first one's order among equals. */
  lemma {:induction false} StableSort<T>(s: seq<T>, first: T -> real, second: T -> real)
    requires Ascending(s, second)
    ensures Lexicographic(SortBy(s, first), first, second)
    ensures multiset(SortBy(s, first)) == multiset(s)
    decreases |s|
  {
    SortPermutes(s, first);
    if s != [] {
      var rest := s[1..];
      var sorted := SortBy(rest, first);
      StableSort(rest, first, second);
      PermutedMembers(sorted, rest);
      forall y | y in sorted ensures second(s[0]) <= second(y) {
        var k :| 0 <= k < |rest| && rest[k] == y;
        assert y == s[k + 1];
      }
      InsertOrdered(s[0], sorted, first, second);
    }
  }

  lemma SortAscends<T>(s: seq<T>, key: T -> real)
    ensures Ascending(SortBy(s, key), key)
    ensures multiset(SortBy(s, key)) == multiset(s)
  {
    StableSort(s, key, Nothing);
    var r := SortBy(s, key);
    forall j, k | 0 <= j < k < |r| ensures key(r[j]) <= key(r[k]) {
      assert LexAtMost(r[j], r[k], key, Nothing);
    }
  }

  function Nothing<T>(x: T): real {
    0.0
  }

  /** A list already in order is left exactly as it is. */
  lemma {:induction false} SortedStays<T>(s: seq<T>, key: T -> real)
    requires Ascending(s, key)
    ensures SortBy(s, key) == s
    decreases |s|
  {
    if s != [] {
      SortedStays(s[1..], key);
      assert s == [s[0]] + s[1..];
      if |s| > 1 { assert s[1..][0] == s[1]; }
    }
  }
}
