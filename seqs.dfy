/** List comprehensions with an `if` clause, and the facts about them that the model relies on. */
module Seqs {

  /** `r` can be obtained from `s` by deleting elements: the elements of `r` occur in `s` in the same order. */
  predicate IsSubsequence<T(==,!new)>(r: seq<T>, s: seq<T>)
    decreases |s|
  {
    if r == [] then true
    else if s == [] then false
    else if r[|r| - 1] == s[|s| - 1] then IsSubsequence(r[..|r| - 1], s[..|s| - 1])
    else IsSubsequence(r, s[..|s| - 1])
  }

  /** `[x for x in s if p(x)]`: the elements of `s` that satisfy `p`, kept in their order in `s`. */
  function Filter<T(!new)>(p: T -> bool, s: seq<T>): (r: seq<T>)
    ensures |r| <= |s|
    ensures forall k :: 0 <= k < |r| ==> p(r[k])
    decreases |s|
  {
    if s == [] then []
    else Filter(p, s[..|s| - 1]) + (if p(s[|s| - 1]) then [s[|s| - 1]] else [])
  }

  /** The filter holds each element satisfying `p` as often as `s` does, and no other element. */
  lemma {:induction false} FilterCounts<T(!new)>(p: T -> bool, s: seq<T>)
    ensures forall x :: multiset(Filter(p, s))[x] == if p(x) then multiset(s)[x] else 0
    decreases |s|
  {
    if s != [] {
      var init, last := s[..|s| - 1], s[|s| - 1];
      assert s == init + [last];
      FilterCounts(p, init);
    }
  }

  /** The filter keeps the order of `s`. */
  lemma {:induction false} FilterIsSubsequence<T(!new)>(p: T -> bool, s: seq<T>)
    ensures IsSubsequence(Filter(p, s), s)
    decreases |s|
  {
    if s != [] {
      var init, last := s[..|s| - 1], s[|s| - 1];
      FilterIsSubsequence(p, init);
      var rest := Filter(p, init);
      if p(last) {
        assert Filter(p, s) == rest + [last];
        assert (rest + [last])[..|rest|] == rest;
      } else {
        assert Filter(p, s) == rest;
        if rest != [] {
          assert p(rest[|rest| - 1]);
        }
      }
    }
  }

  /** The filter holds exactly the elements of `s` that satisfy `p`, each as often as in `s`, in their order in `s`. */
  lemma FilterExactly<T(!new)>(p: T -> bool, s: seq<T>)
    ensures forall x :: multiset(Filter(p, s))[x] == if p(x) then multiset(s)[x] else 0
    ensures forall x :: x in Filter(p, s) <==> x in s && p(x)
    ensures IsSubsequence(Filter(p, s), s)
  {
    FilterCounts(p, s);
    FilterIsSubsequence(p, s);
    forall x ensures x in Filter(p, s) <==> x in s && p(x) {
      assert x in Filter(p, s) <==> multiset(Filter(p, s))[x] > 0;
      assert x in s <==> multiset(s)[x] > 0;
    }
  }

  /** Filtering a prefix one element longer adds that element exactly when it passes the test. */
  lemma FilterSnoc<T(!new)>(p: T -> bool, s: seq<T>, i: nat)
    requires i < |s|
    ensures Filter(p, s[..i + 1]) == Filter(p, s[..i]) + (if p(s[i]) then [s[i]] else [])
  {
    assert s[..i + 1][..i] == s[..i];
  }

  /** A list whose every element passes the test is its own filter. */
  lemma {:induction false} FilterKeepsAll<T(!new)>(p: T -> bool, s: seq<T>)
    requires forall k :: 0 <= k < |s| ==> p(s[k])
    ensures Filter(p, s) == s
    decreases |s|
  {
    if s != [] {
      FilterKeepsAll(p, s[..|s| - 1]);
      assert s == s[..|s| - 1] + [s[|s| - 1]];
    }
  }

  /** Filtering twice by the same test is filtering once. */
  lemma FilterIdempotent<T(!new)>(p: T -> bool, s: seq<T>)
    ensures Filter(p, Filter(p, s)) == Filter(p, s)
  {
    FilterKeepsAll(p, Filter(p, s));
  }

  /** When no element passes the test, the filter is empty, and conversely. */
  lemma FilterEmptyIff<T(!new)>(p: T -> bool, s: seq<T>)
    ensures Filter(p, s) == [] <==> forall k :: 0 <= k < |s| ==> !p(s[k])
  {
    var r := Filter(p, s);
    FilterExactly(p, s);
    if r != [] {
      assert r[0] in r;
    }
    if exists k :: 0 <= k < |s| && p(s[k]) {
      var k :| 0 <= k < |s| && p(s[k]);
      assert s[k] in s;
      assert s[k] in r;
    }
  }

  /** Filtering first by a weaker test does not change the result of a stronger one. */
  lemma {:induction false} FilterNarrow<T(!new)>(p: T -> bool, q: T -> bool, s: seq<T>)
    requires forall x :: p(x) ==> q(x)
    ensures Filter(p, Filter(q, s)) == Filter(p, s)
    decreases |s|
  {
    if s != [] {
      var init, last := s[..|s| - 1], s[|s| - 1];
      FilterNarrow(p, q, init);
      var qs := Filter(q, init);
      if q(last) {
        assert Filter(q, s) == qs + [last];
        assert (qs + [last])[..|qs|] == qs;
      } else {
        assert Filter(q, s) == qs;
      }
    }
  }
}
