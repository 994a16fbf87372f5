/** The hand-written `algo` namespace: iterator loops over ranges. An
    iterator range [first, last) is modelled by two indices into an
    array (for the algorithms that write) or a sequence (for those that
    only read). */
module Algo {

  /** Number of elements of `s` equal to `v`. */
  function Occurrences<T(==)>(s: seq<T>, v: T): (n: nat)
    ensures n <= |s|
  {
    if s == [] then 0 else Occurrences(s[..|s| - 1], v) + (if s[|s| - 1] == v then 1 else 0)
  }

  /** The positions of `s` that hold `v`. */
  function PositionsOf<T(==)>(s: seq<T>, v: T): set<nat>
  {
    set i: nat | i < |s| && s[i] == v
  }

  lemma {:induction false} OccurrencesCountsPositions<T>(s: seq<T>, v: T)
    ensures Occurrences(s, v) == |PositionsOf(s, v)|
  {
    if s != [] {
      var n := |s| - 1;
      OccurrencesCountsPositions(s[..n], v);
      var before := PositionsOf(s[..n], v);
      assert before == set i: nat | i < n && s[i] == v;
      if s[n] == v {
        assert PositionsOf(s, v) == before + {n};
      } else {
        assert PositionsOf(s, v) == before;
      }
    }
  }

  lemma {:induction false} OccurrencesAppend<T>(a: seq<T>, b: seq<T>, v: T)
    ensures Occurrences(a + b, v) == Occurrences(a, v) + Occurrences(b, v)
    decreases |b|
  {
    if b == [] {
      assert a + b == a;
    } else {
      var m := |b| - 1;
      assert (a + b)[..|a + b| - 1] == a + b[..m];
      OccurrencesAppend(a, b[..m], v);
    }
  }

  lemma {:induction false} OccurrencesAbsent<T>(s: seq<T>, v: T)
    requires forall k :: 0 <= k < |s| ==> s[k] != v
    ensures Occurrences(s, v) == 0
    decreases |s|
  {
    if s != [] {
      OccurrencesAbsent(s[..|s| - 1], v);
    }
  }

  /** `copy`: writes src[i] to dst[dFirst + i - first] for every i in
      [first, last) and nothing else. The source range is read-only, so
      it is a sequence; the C++ loop gives no meaning to overlapping
      ranges and none of its callers has them. */
  method Copy<T>(src: seq<T>, first: nat, last: nat, dst: array<T>, dFirst: nat)
    requires first <= last <= |src|
    requires dFirst + (last - first) <= dst.Length
    modifies dst
    ensures dst[..] == old(dst[..dFirst]) + src[first..last] + old(dst[dFirst + (last - first)..])
  {
    var i, d := first, dFirst;
    while i != last
      invariant first <= i <= last && d == dFirst + (i - first)
      invariant dst[..dFirst] == old(dst[..dFirst])
      invariant dst[dFirst..d] == src[first..i]
      invariant dst[d..] == old(dst[d..])
    {
      dst[d] := src[i];
      i, d := i + 1, d + 1;
    }
    assert dst[..] == dst[..dFirst] + dst[dFirst..d] + dst[d..];
  }

  /** `fill`: every element of [first, last) becomes `value`. */
  method Fill<T>(a: array<T>, first: nat, last: nat, value: T)
    requires first <= last <= a.Length
    modifies a
    ensures a[..] == old(a[..first]) + seq(last - first, _ => value) + old(a[last..])
  {
    var i := first;
    while i != last
      invariant first <= i <= last
      invariant a[..first] == old(a[..first])
      invariant forall k :: first <= k < i ==> a[k] == value
      invariant a[i..] == old(a[i..])
    {
      a[i] := value;
      i := i + 1;
    }
    assert a[..] == a[..first] + a[first..last] + a[last..];
  }

  /** `count`: the number of positions of [first, last) equal to `value`. */
  method Count<T(==)>(s: seq<T>, first: nat, last: nat, value: T) returns (n: nat)
    requires first <= last <= |s|
    ensures n == Occurrences(s[first..last], value)
  {
    n := 0;
    var i := first;
    while i != last
      invariant first <= i <= last
      invariant n == Occurrences(s[first..i], value)
    {
      assert s[first..i + 1][..i - first] == s[first..i];
      n := n + (if s[i] == value then 1 else 0);
      i := i + 1;
    }
  }

  /** `equal`: the first range agrees elementwise with the range of the
      same length starting at `first2`. The loop stops at the first
      mismatch; the precondition asks for the whole second range only
      because the callers (`operator==`) always have it. */
  method Equal<T(==)>(a: seq<T>, first: nat, last: nat, b: seq<T>, first2: nat) returns (eq: bool)
    requires first <= last <= |a|
    requires first2 + (last - first) <= |b|
    ensures eq <==> a[first..last] == b[first2..first2 + (last - first)]
  {
    var i, j := first, first2;
    while i != last
      invariant first <= i <= last && j == first2 + (i - first)
      invariant a[first..i] == b[first2..j]
    {
      if a[i] != b[j] {
        assert a[first..last][i - first] != b[first2..first2 + (last - first)][i - first];
        return false;
      }
      assert a[first..i + 1] == a[first..i] + [a[i]];
      assert b[first2..j + 1] == b[first2..j] + [b[j]];
      i, j := i + 1, j + 1;
    }
    return true;
  }

  /** `s` read back to front. */
  function Reversed<T>(s: seq<T>): (r: seq<T>)
    ensures |r| == |s|
    ensures forall i :: 0 <= i < |s| ==> r[i] == s[|s| - 1 - i]
  {
    seq(|s|, k requires 0 <= k < |s| => s[|s| - 1 - k])
  }

  lemma ReversedInvolutive<T>(s: seq<T>)
    ensures Reversed(Reversed(s)) == s
  {
  }

  lemma ReversedSnoc<T>(s: seq<T>, x: T)
    ensures Reversed(s + [x]) == [x] + Reversed(s)
  {
  }

  /** `reverse`: swaps first/last-1, first+1/last-2, ... until the two
      cursors meet; the range ends up in reversed order and nothing
      outside it changes. */
  method Reverse<T>(a: array<T>, first: nat, last: nat)
    requires first <= last <= a.Length
    modifies a
    ensures a[..] == old(a[..first]) + Reversed(old(a[first..last])) + old(a[last..])
  {
    var lo, hi := first, last;
    while lo != hi && lo != hi - 1
      invariant first <= lo <= hi <= last && lo - first == last - hi
      invariant forall k :: first <= k < lo ==> a[k] == old(a[last - 1 - (k - first)])
      invariant forall k :: hi <= k < last ==> a[k] == old(a[first + (last - 1 - k)])
      invariant forall k :: lo <= k < hi ==> a[k] == old(a[k])
      invariant forall k :: 0 <= k < first || last <= k < a.Length ==> a[k] == old(a[k])
    {
      hi := hi - 1;
      a[lo], a[hi] := a[hi], a[lo];
      lo := lo + 1;
    }
    ghost var mid := old(a[first..last]);
    assert a[..] == old(a[..first]) + Reversed(mid) + old(a[last..]) by {
      forall k | 0 <= k < a.Length
        ensures a[..][k] == (old(a[..first]) + Reversed(mid) + old(a[last..]))[k]
      {
        if first <= k < last {
          assert Reversed(mid)[k - first] == mid[last - first - 1 - (k - first)];
        }
      }
    }
  }

  /** `find_if`: the first position whose element satisfies `pred`, or
      |s| (the end iterator) when there is none. */
  method FindIf<T>(s: seq<T>, pred: T -> bool) returns (k: nat)
    ensures k <= |s|
    ensures k < |s| ==> pred(s[k])
    ensures forall j :: 0 <= j < k ==> !pred(s[j])
  {
    k := 0;
    while k != |s|
      invariant k <= |s|
      invariant forall j :: 0 <= j < k ==> !pred(s[j])
    {
      if pred(s[k]) {
        return;
      }
      k := k + 1;
    }
  }
}
