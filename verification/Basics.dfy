/** Small shared vocabulary: optional values, sorted listings and set sizes. */
module Basics {
  datatype Option<+T> = None | Some(value: T)

  /** How a call of the atomic file writer can end. A failing call raises, and
      leaves either the previous or the new document in place. */
  datatype Write = Written | FailedOld | FailedNew

  predicate StrictlyIncreasing(s: seq<int>)
  {
    forall i, j | 0 <= i < j < |s| :: s[i] < s[j]
  }

  /** `s` is what sorting the set `elems` yields. */
  predicate IsSortedListing(s: seq<nat>, elems: set<nat>)
  {
    StrictlyIncreasing(s) && elems == (set x | x in s)
  }

  lemma Member<T>(s: set<T>) returns (x: T)
    requires s != {}
    ensures x in s
  {
    x :| x in s;
  }

  lemma SubsetSize<T>(a: set<T>, b: set<T>)
    requires a <= b
    ensures |a| <= |b|
  {
    if a != {} {
      var x :| x in a;
      SubsetSize(a - {x}, b - {x});
    }
  }

  predicate Between(lo: int, x: int, hi: int) { lo <= x <= hi }

  /** The integers lo..hi, ends included. */
  function Range(lo: int, hi: int): (r: set<int>)
    ensures forall x :: x in r <==> lo <= x <= hi
    ensures |r| == if lo <= hi then hi - lo + 1 else 0
  {
    RangeSize(lo, hi);
    set x | lo <= x <= hi && Between(lo, x, hi)
  }

  lemma {:induction false} RangeSize(lo: int, hi: int)
    ensures |set x | lo <= x <= hi && Between(lo, x, hi)| == if lo <= hi then hi - lo + 1 else 0
    decreases hi - lo
  {
    if lo <= hi {
      var less := hi - 1;
      RangeSize(lo, less);
      assert (set x | lo <= x <= hi && Between(lo, x, hi)) == (set x | lo <= x <= less && Between(lo, x, less)) + {hi};
    }
  }

  predicate Distinct<T(==)>(s: seq<T>)
  {
    forall i, j | 0 <= i < j < |s| :: s[i] != s[j]
  }

  function Elems<T(==)>(s: seq<T>): set<T> { set x | x in s }

  lemma {:induction false} DistinctSize<T>(s: seq<T>)
    ensures |Elems(s)| <= |s|
    ensures Distinct(s) <==> |Elems(s)| == |s|
  {
    if s != [] {
      var front, last := s[..|s| - 1], s[|s| - 1];
      DistinctSize(front);
      assert s == front + [last];
      assert Elems(s) == Elems(front) + {last};
    }
  }
}
