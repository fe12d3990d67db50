/**
 * The two stream stages the query pipeline is built from: `filter(p).toList()`
 * and `map(f).toList()` on a sequential, ordered stream. Both consume the
 * source from first to last element and append to the result, which is why
 * they are defined on the last element of the input.
 */
module StreamOps {

  /** The elements of `s` that satisfy `p`, in encounter order. */
  function Filter<T(!new)>(s: seq<T>, p: T -> bool): (r: seq<T>)
    ensures |r| <= |s|
  {
    if s == [] then []
    else
      assert s == s[..|s| - 1] + [s[|s| - 1]];
      Filter(s[..|s| - 1], p) + if p(s[|s| - 1]) then [s[|s| - 1]] else []
  }

  /** Filter keeps exactly the elements that satisfy `p`. */
  lemma {:induction false} FilterMembers<T(!new)>(s: seq<T>, p: T -> bool)
    ensures forall x :: x in Filter(s, p) <==> x in s && p(x)
  {
    if s != [] {
      var front, last := s[..|s| - 1], s[|s| - 1];
      FilterMembers(front, p);
      assert s == front + [last];
    }
  }

  /** `f` applied to every element of `s`, in encounter order. */
  function Map<T, U>(s: seq<T>, f: T -> U): (r: seq<U>)
    ensures |r| == |s|
    ensures forall i :: 0 <= i < |s| ==> r[i] == f(s[i])
  {
    if s == [] then [] else Map(s[..|s| - 1], f) + [f(s[|s| - 1])]
  }

  /** The positions of `s` whose elements satisfy `p`, in increasing order. */
  function KeptPositions<T>(s: seq<T>, p: T -> bool): seq<int>
  {
    if s == [] then []
    else KeptPositions(s[..|s| - 1], p) + if p(s[|s| - 1]) then [|s| - 1] else []
  }

  /** `r` is the subsequence of `s` found at the strictly increasing positions `positions`. */
  ghost predicate PicksInOrder<T>(s: seq<T>, r: seq<T>, positions: seq<int>)
  {
    && |positions| == |r|
    && (forall k :: 0 <= k < |positions| ==> 0 <= positions[k] < |s| && r[k] == s[positions[k]])
    && (forall k, l :: 0 <= k < l < |positions| ==> positions[k] < positions[l])
  }

  /**
   * Filter keeps relative order: its result is read off `s` at increasing
   * positions, and those positions are exactly the ones whose element
   * satisfies `p`.
   */
  lemma {:induction false} FilterPicksInOrder<T(!new)>(s: seq<T>, p: T -> bool)
    ensures PicksInOrder(s, Filter(s, p), KeptPositions(s, p))
    ensures forall i :: 0 <= i < |s| ==> (i in KeptPositions(s, p) <==> p(s[i]))
  {
    if s != [] {
      var front := s[..|s| - 1];
      var last := s[|s| - 1];
      FilterPicksInOrder(front, p);
      var kept := KeptPositions(front, p);
      var r := Filter(front, p);
      if p(last) {
        assert KeptPositions(s, p) == kept + [|s| - 1];
        assert Filter(s, p) == r + [last];
      } else {
        assert KeptPositions(s, p) == kept;
        assert Filter(s, p) == r;
      }
    }
  }

  /** Filter consumes its input from the front: one more element at the end adds at most that element. */
  lemma FilterSnoc<T(!new)>(s: seq<T>, x: T, p: T -> bool)
    ensures Filter(s + [x], p) == Filter(s, p) + if p(x) then [x] else []
  {
    assert (s + [x])[..|s|] == s;
  }

  /** Filtering a concatenation filters each part. */
  lemma {:induction false} FilterAppend<T(!new)>(a: seq<T>, b: seq<T>, p: T -> bool)
    ensures Filter(a + b, p) == Filter(a, p) + Filter(b, p)
  {
    if b != [] {
      var b' := b[..|b| - 1];
      assert (a + b)[..|a + b| - 1] == a + b';
      FilterAppend(a, b', p);
    } else {
      assert a + b == a;
    }
  }

  /** Filtering twice with the same predicate is filtering once. */
  lemma {:induction false} FilterIdempotent<T(!new)>(s: seq<T>, p: T -> bool)
    ensures Filter(Filter(s, p), p) == Filter(s, p)
  {
    if s != [] {
      var front := s[..|s| - 1];
      var last := s[|s| - 1];
      FilterIdempotent(front, p);
      FilterAppend(Filter(front, p), if p(last) then [last] else [], p);
    }
  }

  /** Filtering with a predicate no element satisfies gives the empty list. */
  lemma {:induction false} FilterNoneKept<T(!new)>(s: seq<T>, p: T -> bool)
    requires forall i :: 0 <= i < |s| ==> !p(s[i])
    ensures Filter(s, p) == []
  {
    if s != [] {
      FilterNoneKept(s[..|s| - 1], p);
    }
  }

  /** Filtering with a predicate every element satisfies changes nothing. */
  lemma {:induction false} FilterAllKept<T(!new)>(s: seq<T>, p: T -> bool)
    requires forall i :: 0 <= i < |s| ==> p(s[i])
    ensures Filter(s, p) == s
  {
    if s != [] {
      var front, last := s[..|s| - 1], s[|s| - 1];
      FilterAllKept(front, p);
      assert Filter(s, p) == Filter(front, p) + [last];
      assert s == front + [last];
    }
  }
}
