/**
 * The app's main screen: the countdowns in date order, swipe-to-delete, and
 * each row's day badge (see `DayBadge`).
 */
module ListView {
  import opened ArrayOps
  import opened Uuids
  import opened CountdownItems
  import opened DateOrder
  import opened Store

  /** What the list screen shows. */
  datatype ListScreen = EmptyState | Rows(items: seq<CountdownItem>)

  /** The empty-state message for no countdowns; otherwise the rows, earliest first. */
  function ListContent(countdowns: seq<CountdownItem>): (screen: ListScreen)
    ensures screen.EmptyState? <==> countdowns == []
    ensures screen.Rows? ==> SortedByDate(screen.items) && multiset(screen.items) == multiset(countdowns)
    ensures screen.Rows? ==> screen.items == SortByDate(countdowns)
  {
    if countdowns == [] then EmptyState else Rows(SortByDate(countdowns))
  }

  /** `offsets.map { sorted[$0].id }`, as the set `contains` is asked about. */
  function IdsAtOffsets(sorted: seq<CountdownItem>, offsets: set<nat>): (ids: set<Uuid>)
    requires forall o :: o in offsets ==> o < |sorted|
    ensures forall o :: o in offsets ==> sorted[o].id in ids
    ensures forall u :: u in ids ==> exists o :: o in offsets && sorted[o].id == u
    ensures offsets == {} ==> ids == {}
  {
    set o | o in offsets :: sorted[o].id
  }

  /**
   * The list after `onDelete`: the swiped rows' offsets are resolved against
   * the date-sorted order, and every stored countdown carrying one of the
   * resolved ids is removed, duplicates elsewhere in the list included.
   */
  function DeleteAtSortedOffsets(countdowns: seq<CountdownItem>, offsets: set<nat>): (r: seq<CountdownItem>)
    requires forall o :: o in offsets ==> o < |countdowns|
    ensures forall o :: o in offsets ==> forall x :: x in r ==> x.id != SortByDate(countdowns)[o].id
    ensures forall x: CountdownItem :: (forall o :: o in offsets ==> SortByDate(countdowns)[o].id != x.id)
                        ==> multiset(r)[x] == multiset(countdowns)[x]
    ensures multiset(r) <= multiset(countdowns)
    ensures IsSubsequence(r, countdowns)
  {
    var ids := IdsAtOffsets(SortByDate(countdowns), offsets);
    var r := Filter(countdowns, (x: CountdownItem) => x.id !in ids);
    assert forall x :: x in r ==> multiset(r)[x] > 0;
    r
  }

  /**
   * The row the user swiped is the one whose id goes: offsets are resolved
   * against the very order the list screen shows, ties between equal dates
   * included.
   */
  lemma SwipedRowIsDeleted(countdowns: seq<CountdownItem>, offsets: set<nat>, o: nat)
    requires forall o :: o in offsets ==> o < |countdowns|
    requires o in offsets
    ensures ListContent(countdowns).Rows? && o < |ListContent(countdowns).items|
    ensures forall x :: x in DeleteAtSortedOffsets(countdowns, offsets)
                        ==> x.id != ListContent(countdowns).items[o].id
  {
  }

  /** Swiping nothing away changes nothing. */
  lemma DeleteNoOffsets(countdowns: seq<CountdownItem>)
    ensures DeleteAtSortedOffsets(countdowns, {}) == countdowns
  {
    FilterKeepsAll(countdowns, (x: CountdownItem) => x.id !in IdsAtOffsets(SortByDate(countdowns), {}));
  }

  /** `.onDelete { offsets in … store.countdowns.removeAll { … } }`: one assignment, hence one save. */
  method OnDelete(store: CountdownStore, offsets: set<nat>)
    requires forall o :: o in offsets ==> o < |store.countdowns|
    modifies store, store.defaults
    ensures store.countdowns == DeleteAtSortedOffsets(old(store.countdowns), offsets)
    ensures store.SavedOver(old(store.Snapshot()), old(store.reloads))
    ensures store.InSync()
  {
    var sorted := SortByDate(store.countdowns);
    var idsToDelete := IdsAtOffsets(sorted, offsets);
    store.SetCountdowns(Filter(store.countdowns, (x: CountdownItem) => x.id !in idsToDelete));
  }
}
