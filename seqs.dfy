/** Order-preserving filtering of sequences, the shape of every child-list and listener-list edit. */
module Seqs {

  /** The elements of `s` that satisfy `p`, in their order in `s`. */
  function Filter<T(!new)>(s: seq<T>, p: T -> bool): (r: seq<T>)
    ensures |r| <= |s|
  {
    if s == [] then [] else (if p(s[0]) then [s[0]] else []) + Filter(s[1..], p)
  }

  /** Exactly the elements of `s` that satisfy `p` survive the filter. */
  lemma {:induction false} FilterMembers<T(!new)>(s: seq<T>, p: T -> bool)
    ensures forall x :: x in Filter(s, p) <==> x in s && p(x)
  {
    if s != [] {
      FilterMembers(s[1..], p);
      assert s == [s[0]] + s[1..];
    }
  }

  /** Filtering distributes over concatenation: relative order is kept across any cut. */
  lemma {:induction false} FilterConcat<T(!new)>(a: seq<T>, b: seq<T>, p: T -> bool)
    ensures Filter(a + b, p) == Filter(a, p) + Filter(b, p)
  {
    if a == [] {
      assert a + b == b;
    } else {
      var head := if p(a[0]) then [a[0]] else [];
      assert (a + b)[0] == a[0] && (a + b)[1..] == a[1..] + b;
      FilterConcat(a[1..], b, p);
      calc {
        Filter(a + b, p);
        head + Filter(a[1..] + b, p);
        head + (Filter(a[1..], p) + Filter(b, p));
        (head + Filter(a[1..], p)) + Filter(b, p);
      }
    }
  }

  /** A filter every element passes changes nothing. */
  lemma {:induction false} FilterAll<T(!new)>(s: seq<T>, p: T -> bool)
    requires forall x :: x in s ==> p(x)
    ensures Filter(s, p) == s
  {
    if s != [] {
      FilterAll(s[1..], p);
    }
  }

  /** Filtering a one-element sequence keeps it exactly when it satisfies `p`. */
  lemma FilterSingleton<T(!new)>(x: T, p: T -> bool)
    ensures Filter([x], p) == if p(x) then [x] else []
  {
    assert [x][1..] == [];
  }

  /** Appending one element: the filter grows by that element when it satisfies `p`. */
  lemma FilterSnoc<T(!new)>(a: seq<T>, x: T, p: T -> bool)
    ensures Filter(a + [x], p) == Filter(a, p) + (if p(x) then [x] else [])
  {
    FilterConcat(a, [x], p);
    FilterSingleton(x, p);
  }

  /** Filtering twice is filtering once by the conjunction. */
  lemma {:induction false} FilterFilter<T(!new)>(s: seq<T>, p: T -> bool, q: T -> bool, r: T -> bool)
    requires forall x :: r(x) == (p(x) && q(x))
    ensures Filter(Filter(s, p), q) == Filter(s, r)
  {
    if s != [] {
      FilterFilter(s[1..], p, q, r);
      if p(s[0]) {
        assert Filter(s, p) == [s[0]] + Filter(s[1..], p);
        assert Filter(s, p)[1..] == Filter(s[1..], p);
      } else {
        assert Filter(s, p) == Filter(s[1..], p);
      }
    }
  }

  /** A filter and the filter by the negated predicate split `s` without losing or adding anything. */
  lemma {:induction false} FilterPartition<T(!new)>(s: seq<T>, p: T -> bool, q: T -> bool)
    requires forall x :: q(x) == !p(x)
    ensures multiset(Filter(s, p)) + multiset(Filter(s, q)) == multiset(s)
  {
    if s != [] {
      FilterPartition(s[1..], p, q);
      var head := if p(s[0]) then [s[0]] else [];
      var tail := if q(s[0]) then [s[0]] else [];
      assert Filter(s, p) == head + Filter(s[1..], p);
      assert Filter(s, q) == tail + Filter(s[1..], q);
      assert multiset(head) + multiset(tail) == multiset([s[0]]);
      assert s == [s[0]] + s[1..];
      assert multiset(s) == multiset([s[0]]) + multiset(s[1..]);
    }
  }

  /**
   * Part way through removing, in place and in order, the elements of a snapshot `s` that fail `p`:
   * `live` holds the survivors of `s[..i]` followed by the part not yet reached, and `k` is where
   * `s[i]` now sits.
   */
  predicate FilterWalk<T(!new,==)>(s: seq<T>, p: T -> bool, i: nat, live: seq<T>, k: nat)
  {
    i <= |s| && k == |Filter(s[..i], p)| && live == Filter(s[..i], p) + s[i..]
  }

  lemma FilterWalkStep<T(!new)>(s: seq<T>, p: T -> bool, i: nat, live: seq<T>, k: nat)
    requires i < |s| && FilterWalk(s, p, i, live, k)
    ensures k < |live| && live[k] == s[i]
    ensures p(s[i]) ==> FilterWalk(s, p, i + 1, live, k + 1)
    ensures !p(s[i]) ==> FilterWalk(s, p, i + 1, live[..k] + live[k + 1..], k)
  {
    assert s[..i + 1] == s[..i] + [s[i]];
    FilterSnoc(s[..i], s[i], p);
    assert s[i..] == [s[i]] + s[i + 1..];
  }

  lemma FilterWalkDone<T(!new)>(s: seq<T>, p: T -> bool, live: seq<T>, k: nat)
    requires FilterWalk(s, p, |s|, live, k)
    ensures live == Filter(s, p)
  {
    assert s[..|s|] == s;
  }

  /** The set of elements of a sequence. */
  function Elems<T(!new)>(s: seq<T>): set<T>
  {
    set x | x in s
  }
}
