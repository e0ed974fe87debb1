/**
 * `sorted(by: { $0.targetDate < $1.targetDate })`, used by the list screen, the
 * widget and the entity picker alike: ascending by target date. Ties may come
 * out in either order as far as the contracts promise.
 */
module DateOrder {
  import opened CountdownItems

  predicate SortedByDate(s: seq<CountdownItem>) {
    forall i, j :: 0 <= i < j < |s| ==> s[i].targetDate <= s[j].targetDate
  }

  /** Puts `x` into the sorted `s` before the first item that is not earlier. */
  function InsertByDate(x: CountdownItem, s: seq<CountdownItem>): (r: seq<CountdownItem>)
    requires SortedByDate(s)
    ensures SortedByDate(r)
    ensures multiset(r) == multiset(s) + multiset{x}
  {
    if s == [] || x.targetDate <= s[0].targetDate then
      [x] + s
    else
      var rest := InsertByDate(x, s[1..]);
      assert s == [s[0]] + s[1..];
      forall k | 0 <= k < |rest| ensures s[0].targetDate <= rest[k].targetDate {
        assert rest[k] in multiset(rest);
        assert rest[k] == x || rest[k] in multiset(s[1..]);
      }
      [s[0]] + rest
  }

  /** The items ordered by ascending target date: sorted, and a permutation of the input. */
  function SortByDate(s: seq<CountdownItem>): (r: seq<CountdownItem>)
    ensures SortedByDate(r)
    ensures multiset(r) == multiset(s)
    ensures |r| == |s|
  {
    if s == [] then []
    else
      assert s == [s[0]] + s[1..];
      InsertByDate(s[0], SortByDate(s[1..]))
  }

  /** Every element of a sorted list is at least its first element. */
  lemma SortedHeadIsEarliest(s: seq<CountdownItem>, x: CountdownItem)
    requires SortedByDate(s) && x in s
    ensures s[0].targetDate <= x.targetDate
  {
  }

  /**
   * `sorted(...).first`: for a non-empty list, an item of the list whose date
   * is no later than any other item's.
   */
  lemma SortedFirstIsEarliest(s: seq<CountdownItem>)
    requires s != []
    ensures SortByDate(s)[0] in s
    ensures forall x :: x in s ==> SortByDate(s)[0].targetDate <= x.targetDate
  {
    var r := SortByDate(s);
    assert r[0] in multiset(r);
    forall x | x in s ensures r[0].targetDate <= x.targetDate {
      assert x in multiset(s);
      SortedHeadIsEarliest(r, x);
    }
  }
}
