/**
 * Order-preserving selection over sequences, the shape shared by every
 * `find`, `deleteMany` and `countDocuments` query over a table.
 */
module Seqs {

  /** The elements of `s` satisfying `p`, in their original order. */
  function Filter<T(!new)>(s: seq<T>, p: T -> bool): (r: seq<T>)
    ensures |r| <= |s|
    ensures forall x {:trigger x in r} :: x in r <==> x in s && p(x)
    decreases |s|
  {
    if s == [] then []
    else Filter(s[..|s| - 1], p) + (if p(s[|s| - 1]) then [s[|s| - 1]] else [])
  }

  /** Conjunction of two predicates. */
  function Both<T(!new)>(p: T -> bool, q: T -> bool): (r: T -> bool)
    ensures forall x :: r(x) <==> p(x) && q(x)
  {
    x => p(x) && q(x)
  }

  /** Negation of a predicate. */
  function Not<T(!new)>(p: T -> bool): (r: T -> bool)
    ensures forall x :: r(x) <==> !p(x)
  {
    x => !p(x)
  }

  /** Filtering a sequence extended by one element extends the result by that element when it is selected. */
  lemma FilterSnoc<T(!new)>(s: seq<T>, x: T, p: T -> bool)
    ensures Filter(s + [x], p) == Filter(s, p) + (if p(x) then [x] else [])
  {
    assert (s + [x])[..|s + [x]| - 1] == s;
  }

  /** Filtering the prefix of length `k + 1` is filtering the prefix of length `k`, then looking at `s[k]`. */
  lemma FilterPrefix<T(!new)>(s: seq<T>, k: nat, p: T -> bool)
    requires k < |s|
    ensures Filter(s[..k + 1], p) == Filter(s[..k], p) + (if p(s[k]) then [s[k]] else [])
  {
    assert s[..k + 1] == s[..k] + [s[k]];
    FilterSnoc(s[..k], s[k], p);
  }

  /** Filtering keeps everything when every element is selected. */
  lemma {:induction false} FilterAll<T(!new)>(s: seq<T>, p: T -> bool)
    requires forall x :: x in s ==> p(x)
    ensures Filter(s, p) == s
    decreases |s|
  {
    if s != [] {
      var init, last := s[..|s| - 1], s[|s| - 1];
      assert forall x :: x in init ==> x in s;
      FilterAll(init, p);
      assert p(last);
      assert init + [last] == s;
    }
  }

  /** Filtering keeps nothing when no element is selected. */
  lemma {:induction false} FilterNone<T(!new)>(s: seq<T>, p: T -> bool)
    requires forall x :: x in s ==> !p(x)
    ensures Filter(s, p) == []
    decreases |s|
  {
    if s != [] {
      var init, last := s[..|s| - 1], s[|s| - 1];
      assert forall x :: x in init ==> x in s;
      FilterNone(init, p);
      assert last in s;
    }
  }

  /** Two predicates that agree on the elements of `s` select the same subsequence. */
  lemma {:induction false} FilterExt<T(!new)>(s: seq<T>, p: T -> bool, q: T -> bool)
    requires forall x :: x in s ==> p(x) == q(x)
    ensures Filter(s, p) == Filter(s, q)
    decreases |s|
  {
    if s != [] {
      FilterExt(s[..|s| - 1], p, q);
    }
  }

  /** Filtering twice is filtering once by the conjunction. */
  lemma {:induction false} FilterFilter<T(!new)>(s: seq<T>, p: T -> bool, q: T -> bool)
    ensures Filter(Filter(s, p), q) == Filter(s, Both(p, q))
    decreases |s|
  {
    if s != [] {
      var init, last := s[..|s| - 1], s[|s| - 1];
      FilterFilter(init, p, q);
      assert Filter(s, p) == Filter(init, p) + (if p(last) then [last] else []);
      assert Filter(s, Both(p, q)) == Filter(init, Both(p, q)) + (if p(last) && q(last) then [last] else []);
      if p(last) {
        FilterSnoc(Filter(init, p), last, q);
        assert Filter(Filter(s, p), q) == Filter(Filter(init, p), q) + (if q(last) then [last] else []);
      } else {
        assert Filter(s, p) == Filter(init, p);
        assert Filter(s, Both(p, q)) == Filter(init, Both(p, q));
      }
    }
  }

  /** Every element is selected either by `p` or by its negation. */
  lemma {:induction false} FilterComplement<T(!new)>(s: seq<T>, p: T -> bool)
    ensures |Filter(s, p)| + |Filter(s, Not(p))| == |s|
    decreases |s|
  {
    if s != [] {
      FilterComplement(s[..|s| - 1], p);
    }
  }

  /** A weaker predicate selects at least as many elements. */
  lemma {:induction false} FilterWeaker<T(!new)>(s: seq<T>, p: T -> bool, q: T -> bool)
    requires forall x :: x in s && p(x) ==> q(x)
    ensures |Filter(s, p)| <= |Filter(s, q)|
    decreases |s|
  {
    if s != [] {
      FilterWeaker(s[..|s| - 1], p, q);
    }
  }

  /** Sequences holding the same multiset hold the same elements. */
  lemma SameMultisetSameElements<T>(a: seq<T>, b: seq<T>)
    requires multiset(a) == multiset(b)
    ensures forall x :: x in a <==> x in b
  {
    forall x
      ensures x in a <==> x in b
    {
      assert x in a <==> x in multiset(a);
      assert x in b <==> x in multiset(b);
    }
  }
}
