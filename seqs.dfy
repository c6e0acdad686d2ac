/**
 * The three array combinators the app relies on, `Array.prototype.filter`,
 * `Array.prototype.find` and `Array.prototype.map`, as functions over
 * sequences, with the facts used by the rest of the model.
 */
module Seqs {
  import opened Wrappers

  /** The elements of `s` that satisfy `p`, in their original order. */
  function Filter<T(!new)>(s: seq<T>, p: T -> bool): (r: seq<T>)
    ensures |r| <= |s|
    ensures forall x :: x in r <==> x in s && p(x)
  {
    if |s| == 0 then []
    else
      var init, last := s[..|s| - 1], s[|s| - 1];
      assert s == init + [last];
      Filter(init, p) + (if p(last) then [last] else [])
  }

  /** Filtering distributes over concatenation: the relative order is kept. */
  lemma {:induction false} FilterConcat<T(!new)>(a: seq<T>, b: seq<T>, p: T -> bool)
    ensures Filter(a + b, p) == Filter(a, p) + Filter(b, p)
  {
    if |b| == 0 {
      assert a + b == a;
    } else {
      var b', last := b[..|b| - 1], b[|b| - 1];
      assert (a + b)[..|a + b| - 1] == a + b';
      assert (a + b)[|a + b| - 1] == last;
      FilterConcat(a, b', p);
    }
  }

  /** A filter keeps every copy of a passing value and no copy of a failing one. */
  lemma {:induction false} FilterCount<T(!new)>(s: seq<T>, p: T -> bool, x: T)
    ensures multiset(Filter(s, p))[x] == if p(x) then multiset(s)[x] else 0
  {
    if |s| > 0 {
      var init, last := s[..|s| - 1], s[|s| - 1];
      assert s == init + [last];
      FilterCount(init, p, x);
    }
  }

  /** A filter that every element passes leaves the sequence as it was. */
  lemma {:induction false} FilterAll<T(!new)>(s: seq<T>, p: T -> bool)
    requires forall x :: x in s ==> p(x)
    ensures Filter(s, p) == s
  {
    if |s| > 0 {
      assert s == s[..|s| - 1] + [s[|s| - 1]];
      FilterAll(s[..|s| - 1], p);
    }
  }

  /**
   * The last element kept by a non-empty filter sits at some index `j` of `s`,
   * no later element passes, and the earlier kept elements are the filter of
   * `s[..j]`.
   */
  lemma {:induction false} FilterLast<T(!new)>(s: seq<T>, p: T -> bool) returns (j: nat)
    requires |Filter(s, p)| > 0
    ensures j < |s| && p(s[j]) && s[j] == Filter(s, p)[|Filter(s, p)| - 1]
    ensures forall k :: j < k < |s| ==> !p(s[k])
    ensures Filter(s[..j], p) == Filter(s, p)[..|Filter(s, p)| - 1]
  {
    var n := |s| - 1;
    var init, last := s[..n], s[n];
    if p(last) {
      assert Filter(s, p) == Filter(init, p) + [last];
      j := n;
    } else {
      assert Filter(s, p) == Filter(init, p);
      j := FilterLast(init, p);
      assert init[..j] == s[..j];
      forall k | j < k < |s| ensures !p(s[k]) {
        if k < n { assert s[k] == init[k]; }
      }
    }
  }

  /** The indices of the last two elements that pass, when there are two. */
  lemma FilterLastTwo<T(!new)>(s: seq<T>, p: T -> bool) returns (i: nat, j: nat)
    requires |Filter(s, p)| >= 2
    ensures i < j < |s| && p(s[i]) && p(s[j])
    ensures var r := Filter(s, p); s[i] == r[|r| - 2] && s[j] == r[|r| - 1]
    ensures forall k :: i < k < |s| && k != j ==> !p(s[k])
  {
    var r := Filter(s, p);
    j := FilterLast(s, p);
    var front := s[..j];
    var rf := Filter(front, p);
    assert |rf| == |r| - 1;
    i := FilterLast(front, p);
    assert rf[|rf| - 1] == r[|r| - 2];
    assert s[i] == front[i];
    forall k | i < k < |s| && k != j ensures !p(s[k]) {
      if k < j { assert s[k] == front[k]; }
    }
  }

  /** A filter that no element passes is empty. */
  lemma {:induction false} FilterNone<T(!new)>(s: seq<T>, p: T -> bool)
    requires forall i :: 0 <= i < |s| ==> !p(s[i])
    ensures Filter(s, p) == []
  {
    if |s| > 0 {
      FilterNone(s[..|s| - 1], p);
    }
  }

  /** A filter that exactly one index passes keeps exactly that element. */
  lemma {:induction false} FilterExactlyOne<T(!new)>(s: seq<T>, p: T -> bool, k: nat)
    requires k < |s| && p(s[k])
    requires forall i :: 0 <= i < |s| && i != k ==> !p(s[i])
    ensures Filter(s, p) == [s[k]]
  {
    var init := s[..|s| - 1];
    if k == |s| - 1 {
      FilterSlice(s, p, 0, k);
      assert init == s[..k];
    } else {
      forall i | 0 <= i < |init| && i != k ensures !p(init[i]) {
        assert init[i] == s[i];
      }
      FilterExactlyOne(init, p, k);
    }
  }

  /** A slice none of whose elements passes filters to nothing. */
  lemma FilterSlice<T(!new)>(s: seq<T>, p: T -> bool, lo: nat, hi: nat)
    requires lo <= hi <= |s|
    requires forall i :: lo <= i < hi ==> !p(s[i])
    ensures Filter(s[lo..hi], p) == []
  {
    var c := s[lo..hi];
    forall i | 0 <= i < |c| ensures !p(c[i]) { assert c[i] == s[lo + i]; }
    FilterNone(c, p);
  }

  /** Filtering a single element. */
  lemma FilterSingleton<T(!new)>(x: T, p: T -> bool)
    ensures Filter([x], p) == if p(x) then [x] else []
  {
    assert [x][..0] == [];
  }

  /** Two passing elements at different indices give a filter of at least two. */
  lemma FilterTwo<T(!new)>(s: seq<T>, p: T -> bool, i: nat, j: nat)
    requires i < j < |s| && p(s[i]) && p(s[j])
    ensures |Filter(s, p)| >= 2
  {
    var a, b := s[..j], s[j..];
    assert s == a + b;
    FilterConcat(a, b, p);
    assert s[i] == a[i];
    assert s[j] == b[0];
    assert s[i] in Filter(a, p);
    assert s[j] in Filter(b, p);
  }

  /** The index of the first element of `s` that satisfies `p`, as `find` scans. */
  function FindFirst<T>(s: seq<T>, p: T -> bool): (r: Option<nat>)
    ensures r.Some? ==> r.value < |s| && p(s[r.value]) && forall k :: 0 <= k < r.value ==> !p(s[k])
    ensures r.None? <==> forall k :: 0 <= k < |s| ==> !p(s[k])
  {
    if |s| == 0 then None
    else if p(s[0]) then Some(0)
    else
      match FindFirst(s[1..], p)
      case None => None
      case Some(i) => Some(i + 1)
  }

  /** `find`: the first element satisfying `p`, or none. */
  function Find<T>(s: seq<T>, p: T -> bool): (r: Option<T>)
    ensures r.Some? ==> exists i :: 0 <= i < |s| && s[i] == r.value && p(s[i])
                                    && forall k :: 0 <= k < i ==> !p(s[k])
    ensures r.None? <==> forall i :: 0 <= i < |s| ==> !p(s[i])
  {
    match FindFirst(s, p)
    case None => None
    case Some(i) => Some(s[i])
  }

  /** `Array.prototype.map`: `f` applied to each element, in order. */
  function Map<T, U>(s: seq<T>, f: T -> U): (r: seq<U>)
    ensures |r| == |s|
    ensures forall i :: 0 <= i < |s| ==> r[i] == f(s[i])
  {
    seq(|s|, i requires 0 <= i < |s| => f(s[i]))
  }

  /** Mapping distributes over concatenation. */
  lemma MapConcat<T, U>(a: seq<T>, b: seq<T>, f: T -> U)
    ensures Map(a + b, f) == Map(a, f) + Map(b, f)
  {
  }

  /**
   * Filtering and mapping commute when the map never changes whether an
   * element passes the filter.
   */
  lemma {:induction false} FilterMap<T(!new), U(!new)>(s: seq<T>, f: T -> U, p: T -> bool, q: U -> bool)
    requires forall x :: q(f(x)) == p(x)
    ensures Filter(Map(s, f), q) == Map(Filter(s, p), f)
  {
    if |s| > 0 {
      var init, last := s[..|s| - 1], s[|s| - 1];
      assert s == init + [last];
      assert Map(s, f)[..|s| - 1] == Map(init, f);
      FilterMap(init, f, p, q);
      MapConcat(Filter(init, p), if p(last) then [last] else [], f);
    }
  }
}
