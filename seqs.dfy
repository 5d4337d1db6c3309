/** Sequence helpers shared by the reapers and the teardown.

    Every listing the scavenger walks is turned into a list of candidates by an
    `if` around an `append` (`Filter`), and every candidate becomes one provider
    call (`Map`). The lemmas here are what the per-resource contracts are built
    from: membership in a filter, filters over concatenations, two filters in a
    row, and "a key that is unique in the listing is called exactly once". */
module Seqs {

  /** The elements of `s` that satisfy `p`, in their original order. */
  function Filter<T>(s: seq<T>, p: T -> bool): (r: seq<T>)
    ensures |r| <= |s|
  {
    if |s| == 0 then []
    else Filter(s[..|s| - 1], p) + (if p(s[|s| - 1]) then [s[|s| - 1]] else [])
  }

  /** `f` applied to every element of `s`, in order. */
  function Map<T, U>(f: T -> U, s: seq<T>): (r: seq<U>)
    ensures |r| == |s|
  {
    seq(|s|, i requires 0 <= i < |s| => f(s[i]))
  }

  /** Both predicates at once. */
  function Both<T>(p: T -> bool, q: T -> bool): T -> bool
  {
    x => p(x) && q(x)
  }

  /** No two positions of `s` share a key. */
  ghost predicate UniqueKeys<T, K>(s: seq<T>, key: T -> K)
  {
    forall i, j :: 0 <= i < j < |s| ==> key(s[i]) != key(s[j])
  }

  /** Extending the listing by one element extends the filter by at most that element. */
  lemma FilterSnoc<T>(s: seq<T>, i: nat, p: T -> bool)
    requires i < |s|
    ensures Filter(s[..i + 1], p) == Filter(s[..i], p) + (if p(s[i]) then [s[i]] else [])
  {
    assert s[..i + 1][..i] == s[..i];
  }

  lemma MapSnoc<T, U>(f: T -> U, s: seq<T>, x: T)
    ensures Map(f, s + [x]) == Map(f, s) + [f(x)]
  {
  }

  /** The calls for a listing extended by one element: one more call exactly
      when that element is kept. */
  lemma CallsSnoc<T, U>(s: seq<T>, i: nat, p: T -> bool, f: T -> U)
    requires i < |s|
    ensures Map(f, Filter(s[..i + 1], p)) == Map(f, Filter(s[..i], p)) + (if p(s[i]) then [f(s[i])] else [])
  {
    FilterSnoc(s, i, p);
    if p(s[i]) {
      MapSnoc(f, Filter(s[..i], p), s[i]);
    } else {
      assert Filter(s[..i + 1], p) == Filter(s[..i], p);
    }
  }

  /** The calls for one more element of an unfiltered listing. */
  lemma MapPrefixSnoc<T, U>(f: T -> U, s: seq<T>, i: nat)
    requires i < |s|
    ensures Map(f, s[..i + 1]) == Map(f, s[..i]) + [f(s[i])]
  {
    assert s[..i + 1] == s[..i] + [s[i]];
    MapSnoc(f, s[..i], s[i]);
  }

  lemma MapAppend<T, U>(f: T -> U, a: seq<T>, b: seq<T>)
    ensures Map(f, a + b) == Map(f, a) + Map(f, b)
  {
  }

  lemma {:induction false} FilterMember<T>(s: seq<T>, p: T -> bool, x: T)
    ensures x in Filter(s, p) <==> x in s && p(x)
  {
    if |s| > 0 {
      var init := s[..|s| - 1];
      FilterMember(init, p, x);
      assert s == init + [s[|s| - 1]];
    }
  }

  lemma {:induction false} FilterAppend<T>(a: seq<T>, b: seq<T>, p: T -> bool)
    ensures Filter(a + b, p) == Filter(a, p) + Filter(b, p)
  {
    if |b| == 0 {
      assert a + b == a;
    } else {
      var init := b[..|b| - 1];
      assert (a + b)[..|a + b| - 1] == a + init;
      FilterAppend(a, init, p);
    }
  }

  /** Filtering twice is filtering once by the conjunction. */
  lemma {:induction false} FilterFilter<T>(s: seq<T>, p: T -> bool, q: T -> bool)
    ensures Filter(Filter(s, p), q) == Filter(s, Both(p, q))
  {
    if |s| > 0 {
      var init, last := s[..|s| - 1], s[|s| - 1];
      FilterFilter(init, p, q);
      FilterAppend(Filter(init, p), if p(last) then [last] else [], q);
      assert (if p(last) then [last] else [])[..0] == [];
    }
  }

  /** A key that no element of `s` has is never produced. */
  lemma NotMapped<T, U>(s: seq<T>, p: T -> bool, f: T -> U, y: U)
    requires forall i :: 0 <= i < |s| ==> f(s[i]) != y
    ensures y !in Map(f, Filter(s, p))
  {
    var kept := Filter(s, p);
    forall k | 0 <= k < |kept| ensures Map(f, kept)[k] != y {
      FilterMember(s, p, kept[k]);
    }
  }

  /** When keys are unique, the key of an element of `s` occurs exactly once
      among the mapped candidates if the element is a candidate, and never otherwise. */
  lemma {:induction false} MappedOnce<T, U>(s: seq<T>, p: T -> bool, f: T -> U, x: T)
    requires UniqueKeys(s, f)
    requires x in s
    ensures multiset(Map(f, Filter(s, p)))[f(x)] == if p(x) then 1 else 0
  {
    var n := |s|;
    var init, last := s[..n - 1], s[n - 1];
    assert s == init + [last];
    assert UniqueKeys(init, f) by {
      forall i, j | 0 <= i < j < |init| ensures f(init[i]) != f(init[j]) {
        assert init[i] == s[i] && init[j] == s[j];
      }
    }
    var tail := if p(last) then [last] else [];
    MapAppend(f, Filter(init, p), tail);
    var m := Map(f, Filter(init, p));
    assert Map(f, Filter(s, p)) == m + Map(f, tail);
    if x == last {
      NotMapped(init, p, f, f(x));
      assert multiset(m)[f(x)] == 0;
    } else {
      var k :| 0 <= k < |init| && init[k] == x;
      assert s[k] == x;
      assert f(x) != f(last);
      MappedOnce(init, p, f, x);
    }
  }
}
