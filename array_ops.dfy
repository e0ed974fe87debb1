/**
 * The Swift `Array` operations the app relies on, as functions over sequences:
 * `firstIndex(where:)`, `filter` / `removeAll(where:)` and `remove(atOffsets:)`.
 */
module ArrayOps {
  import opened Options

  /** `firstIndex(where:)`: the position of the first element satisfying `p`, if any. */
  function FirstIndexWhere<T>(s: seq<T>, p: T -> bool): (r: Option<nat>)
    ensures r.Some? ==> r.value < |s| && p(s[r.value])
    ensures r.Some? ==> forall j :: 0 <= j < r.value ==> !p(s[j])
    ensures r.None? <==> forall j :: 0 <= j < |s| ==> !p(s[j])
  {
    if s == [] then None
    else if p(s[0]) then Some(0)
    else
      match FirstIndexWhere(s[1..], p)
      case None => None
      case Some(i) => Some(i + 1)
  }

  /** `r` occurs in `s` in the same relative order, possibly with gaps (greedy matching). */
  predicate IsSubsequence<T(==)>(r: seq<T>, s: seq<T>)
    decreases |s|
  {
    if r == [] then true
    else if s == [] then false
    else if r[0] == s[0] then IsSubsequence(r[1..], s[1..])
    else IsSubsequence(r, s[1..])
  }

  /**
   * `filter(p)`, and `removeAll(where: q)` with `p` the negation of `q`: every
   * element satisfying `p` is kept with its multiplicity, every other element is
   * dropped, and the survivors keep their relative order.
   */
  function Filter<T(==,!new)>(s: seq<T>, p: T -> bool): (r: seq<T>)
    ensures |r| <= |s|
    ensures forall x :: multiset(r)[x] == if p(x) then multiset(s)[x] else 0
    ensures IsSubsequence(r, s)
  {
    if s == [] then []
    else if p(s[0]) then
      var rest := Filter(s[1..], p);
      assert s == [s[0]] + s[1..];
      assert ([s[0]] + rest)[1..] == rest;
      [s[0]] + rest
    else
      var rest := Filter(s[1..], p);
      assert s == [s[0]] + s[1..];
      assert rest != [] ==> rest[0] in multiset(rest) && p(rest[0]) && rest[0] != s[0];
      rest
  }

  /** Filtering with a predicate every element satisfies keeps the whole array. */
  lemma {:induction false} FilterKeepsAll<T(!new)>(s: seq<T>, p: T -> bool)
    requires forall k :: 0 <= k < |s| ==> p(s[k])
    ensures Filter(s, p) == s
  {
    if s != [] {
      FilterKeepsAll(s[1..], p);
    }
  }

  /** The indices in `lo..hi`, ascending, that are not in `offsets`. */
  function Survivors(lo: nat, hi: nat, offsets: set<nat>): (ks: seq<nat>)
    ensures forall a :: 0 <= a < |ks| ==> lo <= ks[a] < hi
    decreases hi - lo
  {
    if lo >= hi then []
    else (if lo in offsets then [] else [lo]) + Survivors(lo + 1, hi, offsets)
  }

  /** The survivor indices are ascending and are exactly the in-range indices not in `offsets`. */
  lemma {:induction false} SurvivorsExact(lo: nat, hi: nat, offsets: set<nat>)
    ensures forall a, b :: 0 <= a < b < |Survivors(lo, hi, offsets)| ==>
              Survivors(lo, hi, offsets)[a] < Survivors(lo, hi, offsets)[b]
    ensures forall i :: i in Survivors(lo, hi, offsets) <==> lo <= i < hi && i !in offsets
    decreases hi - lo
  {
    if lo < hi {
      SurvivorsExact(lo + 1, hi, offsets);
    }
  }

  /** When every offset is below `hi`, exactly `|offsets ∩ lo..hi|` indices are dropped. */
  lemma {:induction false} SurvivorsCount(lo: nat, hi: nat, offsets: set<nat>)
    requires lo <= hi
    ensures |Survivors(lo, hi, offsets)| == (hi - lo) - |set i | i in offsets && lo <= i < hi|
    decreases hi - lo
  {
    var here := set i | i in offsets && lo <= i < hi;
    if lo == hi {
      assert here == {};
    } else {
      SurvivorsCount(lo + 1, hi, offsets);
      var above := set i | i in offsets && lo + 1 <= i < hi;
      if lo in offsets {
        assert here == above + {lo};
      } else {
        assert here == above;
      }
    }
  }

  /**
   * `remove(atOffsets:)`: the elements whose positions are not in `offsets`, in
   * their original order.
   */
  function RemoveOffsets<T>(s: seq<T>, offsets: set<nat>): (r: seq<T>)
    ensures |r| == |Survivors(0, |s|, offsets)|
  {
    var ks := Survivors(0, |s|, offsets);
    SurvivorsExact(0, |s|, offsets);
    seq(|ks|, j requires 0 <= j < |ks| => s[ks[j]])
  }

  /**
   * Removing in-range offsets shortens the array by exactly their number; the
   * result lists `s[k]` for the surviving positions `k`, in ascending order.
   */
  lemma RemoveOffsetsExact<T>(s: seq<T>, offsets: set<nat>)
    requires forall o :: o in offsets ==> o < |s|
    ensures |RemoveOffsets(s, offsets)| == |s| - |offsets|
    ensures forall j :: 0 <= j < |RemoveOffsets(s, offsets)| ==>
              Survivors(0, |s|, offsets)[j] !in offsets &&
              RemoveOffsets(s, offsets)[j] == s[Survivors(0, |s|, offsets)[j]]
  {
    SurvivorsCount(0, |s|, offsets);
    SurvivorsExact(0, |s|, offsets);
    assert (set i | i in offsets && 0 <= i < |s|) == offsets;
  }

  /** Removing no offsets leaves the array as it was. */
  lemma RemoveNoOffsets<T>(s: seq<T>)
    ensures RemoveOffsets(s, {}) == s
  {
    var none: set<nat> := {};
    SurvivorsCount(0, |s|, none);
    SurvivorsExact(0, |s|, none);
    var ks := Survivors(0, |s|, none);
    assert (set i | i in none && 0 <= i < |s|) == none;
    forall j | 0 <= j < |s| ensures ks[j] == j {
      SurvivorsAreIndices(ks, |s|, j);
    }
  }

  /** A strictly ascending list of `n` naturals below `n` is `0, 1, …, n - 1`. */
  lemma {:induction false} SurvivorsAreIndices(ks: seq<nat>, n: nat, j: nat)
    requires |ks| == n && j < n
    requires forall a, b :: 0 <= a < b < |ks| ==> ks[a] < ks[b]
    requires forall a :: 0 <= a < |ks| ==> ks[a] < n
    ensures ks[j] == j
  {
    AscendingLowerBound(ks, j);
    AscendingUpperBound(ks, n, j);
  }

  lemma {:induction false} AscendingLowerBound(ks: seq<nat>, j: nat)
    requires j < |ks|
    requires forall a, b :: 0 <= a < b < |ks| ==> ks[a] < ks[b]
    ensures ks[j] >= j
  {
    if j > 0 {
      AscendingLowerBound(ks, j - 1);
    }
  }

  lemma {:induction false} AscendingUpperBound(ks: seq<nat>, n: nat, j: nat)
    requires j < |ks| == n
    requires forall a, b :: 0 <= a < b < |ks| ==> ks[a] < ks[b]
    requires forall a :: 0 <= a < |ks| ==> ks[a] < n
    ensures ks[j] <= j
    decreases n - j
  {
    if j < n - 1 {
      AscendingUpperBound(ks, n, j + 1);
    }
  }
}
