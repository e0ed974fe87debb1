/**
 * The widget configuration's countdown picker: `CountdownEntityQuery` offers
 * the stored countdowns, earliest first, as entities identified by the
 * `uuidString` of their id.
 */
module EntityQuery {
  import opened Options
  import opened ArrayOps
  import opened Uuids
  import opened CountdownItems
  import opened DateOrder
  import opened SharedStorage
  import opened TimelineWidget

  /** `CountdownEntity`: an id string and a display name. */
  datatype CountdownEntity = CountdownEntity(id: string, name: string)

  function EntityOf(item: CountdownItem): CountdownEntity {
    CountdownEntity(UuidString(item.id), item.name)
  }

  /** `map { CountdownEntity(id: $0.id.uuidString, name: $0.name) }`. */
  function EntitiesOf(items: seq<CountdownItem>): (r: seq<CountdownEntity>)
    ensures |r| == |items|
    ensures forall i :: 0 <= i < |r| ==> r[i] == EntityOf(items[i])
  {
    seq(|items|, i requires 0 <= i < |items| => EntityOf(items[i]))
  }

  /**
   * `loadAll()`: one entity per stored countdown, in ascending date order;
   * nothing when the suite is unavailable, the key is absent or the data does
   * not decode.
   */
  function LoadAll(suite: Suite): (r: seq<CountdownEntity>)
    ensures ReadItems(suite) == [] ==> r == []
    ensures exists sorted :: SortedByDate(sorted) && multiset(sorted) == multiset(ReadItems(suite))
                             && r == EntitiesOf(sorted)
  {
    EntitiesOf(SortByDate(ReadItems(suite)))
  }

  /**
   * `entities(for:)`: the loaded entities whose id was asked for, in the
   * loaded (date) order rather than the order of `identifiers`.
   */
  function EntitiesFor(suite: Suite, identifiers: seq<string>): (r: seq<CountdownEntity>)
    ensures forall e :: e in r <==> e in LoadAll(suite) && e.id in identifiers
    ensures IsSubsequence(r, LoadAll(suite))
    ensures forall e :: multiset(r)[e] == if e.id in identifiers then multiset(LoadAll(suite))[e] else 0
    ensures identifiers == [] ==> r == []
  {
    var all := LoadAll(suite);
    var r := Filter(all, (e: CountdownEntity) => e.id in identifiers);
    assert forall e :: e in r <==> multiset(r)[e] > 0;
    assert forall e :: e in all <==> multiset(all)[e] > 0;
    r
  }

  /** `suggestedEntities()`: `loadAll()`, every loaded entity, earliest first. */
  function SuggestedEntities(suite: Suite): (r: seq<CountdownEntity>)
    ensures r == LoadAll(suite)
    ensures exists sorted :: SortedByDate(sorted) && multiset(sorted) == multiset(ReadItems(suite))
                             && r == EntitiesOf(sorted)
    ensures |r| == |ReadItems(suite)|
    ensures forall x :: x in ReadItems(suite) ==> EntityOf(x) in r
    ensures forall e :: e in r ==> exists x :: x in ReadItems(suite) && e == EntityOf(x)
  {
    var items := ReadItems(suite);
    var sorted := SortByDate(items);
    forall x | x in items ensures EntityOf(x) in LoadAll(suite) {
      assert x in multiset(sorted);
      var i :| 0 <= i < |sorted| && sorted[i] == x;
      assert LoadAll(suite)[i] == EntityOf(x);
    }
    forall e | e in LoadAll(suite) ensures exists x :: x in items && e == EntityOf(x) {
      var i :| 0 <= i < |sorted| && LoadAll(suite)[i] == e;
      assert sorted[i] in multiset(items);
    }
    LoadAll(suite)
  }

  /** `defaultResult()`: the entity of an earliest-dated countdown, or none when there are none. */
  function DefaultResult(suite: Suite): (r: Option<CountdownEntity>)
    ensures r.None? <==> ReadItems(suite) == []
    ensures r.Some? ==> exists x :: x in ReadItems(suite) && r.value == EntityOf(x)
                                    && forall y :: y in ReadItems(suite) ==> x.targetDate <= y.targetDate
  {
    var all := LoadAll(suite);
    if all == [] then None
    else
      SortedFirstIsEarliest(ReadItems(suite));
      Some(all[0])
  }

  /**
   * Configuring the widget with any suggested entity makes the provider
   * feature a countdown with exactly that id: the first stored one carrying it.
   */
  lemma ChosenEntityIsFeatured(suite: Suite, e: CountdownEntity)
    requires e in SuggestedEntities(suite)
    ensures var featured := SelectedCountdown(ReadItems(suite), Some(e.id));
            featured.Some? && EntityOf(featured.value).id == e.id
            && forall i :: IsFirstWithId(ReadItems(suite), i, featured.value.id)
                           ==> featured == Some(ReadItems(suite)[i])
  {
    var items := ReadItems(suite);
    var x :| x in items && e == EntityOf(x);
    ParseUuidString(x.id);
    assert ConfiguredId(Some(e.id)) == Some(x.id);
    var j :| 0 <= j < |items| && items[j] == x;
  }
}
