/** Failure-carrying results and a few facts about sequences shared by the other modules. */
module Wrappers {

  datatype Option<+T> = None | Some(value: T)

  /** No element occurs at two positions. */
  predicate Distinct<T(==)>(s: seq<T>) {
    forall i, j :: 0 <= i < j < |s| ==> s[i] != s[j]
  }

  /** `t` is what is left of `s` after dropping some prefix. */
  predicate IsSuffix<T(==)>(t: seq<T>, s: seq<T>) {
    |t| <= |s| && t == s[|s| - |t|..]
  }

  predicate AllIn<T(==)>(s: seq<T>, universe: set<T>) {
    forall i :: 0 <= i < |s| ==> s[i] in universe
  }

  function RemoveAt<T>(s: seq<T>, i: nat): seq<T>
    requires i < |s|
  {
    s[..i] + s[i + 1..]
  }

  /** A duplicate-free sequence is no longer than any set that holds its elements. */
  lemma {:induction false} DistinctFits<T>(s: seq<T>, universe: set<T>)
    requires Distinct(s)
    requires AllIn(s, universe)
    ensures |s| <= |universe|
  {
    if s != [] {
      var last := s[|s| - 1];
      var rest := s[..|s| - 1];
      DistinctFits(rest, universe - {last});
    }
  }

  /** The parts of a sequence before and behind a position. */
  lemma Cut<T>(s: seq<T>, i: nat) returns (a: seq<T>, b: seq<T>)
    requires i < |s|
    ensures s == a + [s[i]] + b && RemoveAt(s, i) == a + b && |a| == i
  {
    a, b := s[..i], s[i + 1..];
  }

  lemma TakeOut<T>(s: seq<T>, i: nat)
    requires i < |s|
    ensures multiset(s) == multiset(RemoveAt(s, i)) + multiset{s[i]}
    ensures multiset(RemoveAt(s, i)) == multiset(s) - multiset{s[i]}
  {
    assert s == s[..i] + [s[i]] + s[i + 1..];
  }

  lemma SameMembers<T>(s: seq<T>, t: seq<T>)
    requires multiset(s) == multiset(t)
    ensures |s| == |t| && forall x :: x in s <==> x in t
  {
    assert forall x :: x in s <==> x in multiset(s);
    assert |multiset(s)| == |s| && |multiset(t)| == |t|;
  }

  lemma {:induction false} OccursOnce<T>(s: seq<T>, x: T)
    requires Distinct(s)
    ensures multiset(s)[x] <= 1
  {
    if s != [] {
      var last := s[|s| - 1];
      OccursOnce(s[..|s| - 1], x);
      assert s == s[..|s| - 1] + [last];
      if x == last {
        assert x !in s[..|s| - 1];
      }
    }
  }

  lemma OccursTwice<T>(s: seq<T>, i: nat, j: nat)
    requires i < j < |s| && s[i] == s[j]
    ensures multiset(s)[s[i]] >= 2
  {
    assert s == s[..j] + s[j..];
    assert s[i] in s[..j] && s[j..][0] == s[i] && s[i] in s[j..];
  }

  lemma {:induction false} DistinctSize<T>(s: seq<T>)
    requires Distinct(s)
    ensures |set x | x in s| == |s|
  {
    if s != [] {
      var front, last := s[..|s| - 1], s[|s| - 1];
      DistinctSize(front);
      assert s == front + [last] && last !in front;
      assert (set x | x in s) == (set x | x in front) + {last};
    }
  }
}
