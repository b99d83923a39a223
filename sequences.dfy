/** Order-preserving filtering (LINQ `Where(...).ToList()`) and the facts
    about it that the stages rely on. */
module Sequences {

  /** The elements of s that satisfy keep, in their original order. */
  function Filter<T(!new)>(s: seq<T>, keep: T -> bool): (r: seq<T>)
    ensures |r| <= |s|
    ensures forall x :: x in r <==> x in s && keep(x)
  {
    if s == [] then []
    else (if keep(s[0]) then [s[0]] else []) + Filter(s[1..], keep)
  }

  /** No element occurs twice. */
  predicate Distinct<T(==)>(s: seq<T>) {
    forall i, j :: 0 <= i < j < |s| ==> s[i] != s[j]
  }

  /** r can be obtained from s by deleting elements. */
  ghost predicate IsSubsequence<T>(r: seq<T>, s: seq<T>)
    decreases |s|
  {
    if r == [] then true
    else if s == [] then false
    else (r[0] == s[0] && IsSubsequence(r[1..], s[1..])) || IsSubsequence(r, s[1..])
  }

  lemma {:induction false} FilterIsSubsequence<T(!new)>(s: seq<T>, keep: T -> bool)
    ensures IsSubsequence(Filter(s, keep), s)
  {
    if s != [] {
      FilterIsSubsequence(s[1..], keep);
      if keep(s[0]) {
        assert Filter(s, keep) == [s[0]] + Filter(s[1..], keep);
        assert Filter(s, keep)[1..] == Filter(s[1..], keep);
      } else {
        assert Filter(s, keep) == Filter(s[1..], keep);
      }
    }
  }

  /** Filtering keeps exactly the elements that satisfy keep, counted with
      multiplicity. */
  lemma {:induction false} FilterMultiset<T(!new)>(s: seq<T>, keep: T -> bool, x: T)
    ensures multiset(Filter(s, keep))[x] == if keep(x) then multiset(s)[x] else 0
  {
    if s != [] {
      FilterMultiset(s[1..], keep, x);
      assert s == [s[0]] + s[1..];
    }
  }

  /** Filtering twice with the same test changes nothing more. */
  lemma {:induction false} FilterIdempotent<T(!new)>(s: seq<T>, keep: T -> bool)
    ensures Filter(Filter(s, keep), keep) == Filter(s, keep)
  {
    if s != [] {
      var rest := Filter(s[1..], keep);
      FilterIdempotent(s[1..], keep);
      assert Filter(rest, keep) == rest;
      if keep(s[0]) {
        var r := Filter(s, keep);
        assert r == [s[0]] + rest;
        assert r[1..] == rest;
        assert Filter(r, keep) == [s[0]] + Filter(rest, keep);
      } else {
        assert Filter(s, keep) == rest;
      }
    }
  }

  /** A test every element passes removes nothing. */
  lemma {:induction false} FilterKeepsAll<T(!new)>(s: seq<T>, keep: T -> bool)
    requires forall i :: 0 <= i < |s| ==> keep(s[i])
    ensures Filter(s, keep) == s
  {
    if s != [] {
      FilterKeepsAll(s[1..], keep);
    }
  }

  /** A test no element passes removes everything. */
  lemma {:induction false} FilterNone<T(!new)>(s: seq<T>, keep: T -> bool)
    requires forall i :: 0 <= i < |s| ==> !keep(s[i])
    ensures Filter(s, keep) == []
  {
    if s != [] {
      FilterNone(s[1..], keep);
    }
  }

  /** Exactly one passing position gives a one-element result. */
  lemma {:induction false} FilterSingle<T(!new)>(s: seq<T>, keep: T -> bool, i: nat)
    requires i < |s| && keep(s[i])
    requires forall j :: 0 <= j < |s| && j != i ==> !keep(s[j])
    ensures Filter(s, keep) == [s[i]]
  {
    if i == 0 {
      FilterNone(s[1..], keep);
    } else {
      assert !keep(s[0]);
      FilterSingle(s[1..], keep, i - 1);
    }
  }

  /** Two passing positions give at least two elements. */
  lemma {:induction false} FilterTwo<T(!new)>(s: seq<T>, keep: T -> bool, i: nat, j: nat)
    requires i < j < |s| && keep(s[i]) && keep(s[j])
    ensures |Filter(s, keep)| >= 2
  {
    if i == 0 {
      assert s[j] in Filter(s[1..], keep);
    } else {
      FilterTwo(s[1..], keep, i - 1, j - 1);
    }
  }

  /** Filtering distributes over concatenation. */
  lemma {:induction false} FilterAppend<T(!new)>(s: seq<T>, t: seq<T>, keep: T -> bool)
    ensures Filter(s + t, keep) == Filter(s, keep) + Filter(t, keep)
  {
    if s != [] {
      FilterAppend(s[1..], t, keep);
      assert (s + t)[1..] == s[1..] + t;
    } else {
      assert s + t == t;
    }
  }

  /** A test implied by another keeps at least as many elements, and
      strictly more once some element passes it alone. */
  lemma {:induction false} FilterMonotone<T(!new)>(s: seq<T>, keep: T -> bool, wider: T -> bool)
    requires forall y :: y in s && keep(y) ==> wider(y)
    ensures |Filter(s, keep)| <= |Filter(s, wider)|
  {
    if s != [] {
      FilterMonotone(s[1..], keep, wider);
    }
  }

  lemma {:induction false} FilterStrictlyMonotone<T(!new)>(s: seq<T>, keep: T -> bool, wider: T -> bool, x: T)
    requires forall y :: y in s && keep(y) ==> wider(y)
    requires x in s && wider(x) && !keep(x)
    ensures |Filter(s, keep)| < |Filter(s, wider)|
  {
    if s[0] == x {
      FilterMonotone(s[1..], keep, wider);
    } else {
      FilterStrictlyMonotone(s[1..], keep, wider, x);
    }
  }

  /** Two tests that agree on every element filter alike. */
  lemma {:induction false} FilterSameTest<T(!new)>(s: seq<T>, keep: T -> bool, other: T -> bool)
    requires forall y :: y in s ==> (keep(y) <==> other(y))
    ensures Filter(s, keep) == Filter(s, other)
  {
    if s != [] {
      FilterSameTest(s[1..], keep, other);
    }
  }
}
