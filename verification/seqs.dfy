/** Order-preserving selection over sequences: JavaScript's
    `Array.prototype.filter`. */
module Seqs {

  /** `a` is `b` with some elements dropped and the rest in their order. */
  predicate IsSubsequence<T(==,!new)>(a: seq<T>, b: seq<T>)
    decreases |b|
  {
    if a == [] then true
    else if b == [] then false
    else if a[0] == b[0] then IsSubsequence(a[1..], b[1..])
    else IsSubsequence(a, b[1..])
  }

  /** `s.filter(keep)`. */
  function Filter<T(==,!new)>(s: seq<T>, keep: T -> bool): (r: seq<T>)
    ensures |r| <= |s|
    ensures forall x :: x in r <==> x in s && keep(x)
    ensures IsSubsequence(r, s)
  {
    if s == [] then []
    else if keep(s[0]) then [s[0]] + Filter(s[1..], keep)
    else Filter(s[1..], keep)
  }

  /** `filter` keeps every copy of a kept element and no copy of another. */
  lemma {:induction false} FilterCounts<T(!new)>(s: seq<T>, keep: T -> bool)
    ensures forall x :: multiset(Filter(s, keep))[x] == if keep(x) then multiset(s)[x] else 0
  {
    if s != [] {
      assert s == [s[0]] + s[1..];
      FilterCounts(s[1..], keep);
    }
  }

  lemma {:induction false} FilterKeepsAll<T(!new)>(s: seq<T>, keep: T -> bool)
    requires forall x :: x in s ==> keep(x)
    ensures Filter(s, keep) == s
  {
    if s != [] {
      FilterKeepsAll(s[1..], keep);
    }
  }

  lemma {:induction false} FilterAppend<T(!new)>(a: seq<T>, b: seq<T>, keep: T -> bool)
    ensures Filter(a + b, keep) == Filter(a, keep) + Filter(b, keep)
  {
    if a == [] {
      assert a + b == b;
    } else {
      assert (a + b)[1..] == a[1..] + b;
      FilterAppend(a[1..], b, keep);
    }
  }

  /** `s.filter(y => y !== x)`: every occurrence of `x` removed. */
  function RemoveAll<T(==,!new)>(s: seq<T>, x: T): (r: seq<T>)
    ensures x !in r
    ensures forall y :: y != x ==> (y in r <==> y in s)
    ensures IsSubsequence(r, s)
    ensures forall y :: multiset(r)[y] == if y == x then 0 else multiset(s)[y]
    ensures x !in s ==> r == s
  {
    var r := Filter(s, y => y != x);
    FilterCounts(s, y => y != x);
    assert x !in s ==> r == s by {
      if x !in s {
        FilterKeepsAll(s, y => y != x);
      }
    }
    r
  }

  /** Removing an element that was just appended gives the list back. */
  lemma RemoveAppended<T(!new)>(s: seq<T>, x: T)
    requires x !in s
    ensures RemoveAll(s + [x], x) == s
  {
    FilterAppend(s, [x], y => y != x);
    FilterKeepsAll(s, y => y != x);
  }

  /** No element occurs twice. */
  predicate NoDuplicates<T(==,!new)>(s: seq<T>) {
    forall i, j :: 0 <= i < j < |s| ==> s[i] != s[j]
  }

  lemma {:induction false} SubsequenceMembers<T(!new)>(a: seq<T>, b: seq<T>)
    requires IsSubsequence(a, b)
    ensures forall x :: x in a ==> x in b
    decreases |b|
  {
    if a != [] {
      if a[0] == b[0] {
        SubsequenceMembers(a[1..], b[1..]);
        assert a == [a[0]] + a[1..];
      } else {
        SubsequenceMembers(a, b[1..]);
      }
    }
  }

  /** Dropping elements cannot create a duplicate. */
  lemma {:induction false} SubsequenceNoDuplicates<T(!new)>(a: seq<T>, b: seq<T>)
    requires IsSubsequence(a, b) && NoDuplicates(b)
    ensures NoDuplicates(a)
    decreases |b|
  {
    if a != [] {
      assert NoDuplicates(b[1..]) by {
        forall i, j | 0 <= i < j < |b[1..]|
          ensures b[1..][i] != b[1..][j]
        {
          assert b[1..][i] == b[i + 1] && b[1..][j] == b[j + 1];
        }
      }
      if a[0] == b[0] {
        SubsequenceNoDuplicates(a[1..], b[1..]);
        SubsequenceMembers(a[1..], b[1..]);
        forall j | 0 < j < |a|
          ensures a[0] != a[j]
        {
          assert a[j] == a[1..][j - 1];
          assert a[j] in a[1..];
          assert a[j] in b[1..];
          var k :| 0 <= k < |b[1..]| && b[1..][k] == a[j];
          assert b[k + 1] == a[j];
        }
        forall i, j | 0 <= i < j < |a|
          ensures a[i] != a[j]
        {
          if i > 0 {
            assert a[i] == a[1..][i - 1] && a[j] == a[1..][j - 1];
          }
        }
      } else {
        SubsequenceNoDuplicates(a, b[1..]);
      }
    }
  }

  lemma AppendFreshNoDuplicates<T(!new)>(s: seq<T>, x: T)
    requires NoDuplicates(s) && x !in s
    ensures NoDuplicates(s + [x])
  {
    var r := s + [x];
    forall i, j | 0 <= i < j < |r|
      ensures r[i] != r[j]
    {
      assert r[i] == s[i];
      if j < |s| {
        assert r[j] == s[j];
      }
    }
  }
}
