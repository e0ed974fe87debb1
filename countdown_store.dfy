/**
 * `CountdownStore`: the app's list of countdowns. Every assignment to
 * `countdowns` runs its `didSet` observer, which saves: the whole list is
 * encoded and written to the shared suite, and the widgets are asked to
 * reload their timelines. `reloads` counts those requests.
 */
module Store {
  import opened Options
  import opened ArrayOps
  import opened CountdownItems
  import opened SharedStorage

  /**
   * `update(item)` on the list: the first element carrying `item.id` is
   * replaced by `item`; with no such element the list is unchanged.
   */
  function ReplaceFirstById(items: seq<CountdownItem>, item: CountdownItem): (r: seq<CountdownItem>)
    ensures |r| == |items|
    ensures (forall j :: 0 <= j < |items| ==> items[j].id != item.id) ==> r == items
    ensures forall i :: IsFirstWithId(items, i, item.id) ==> r == items[i := item]
  {
    match FirstIndexWhere(items, (x: CountdownItem) => x.id == item.id)
    case None => items
    case Some(i) => items[i := item]
  }

  /**
   * What `load` writes back through `didSet`: the list it read. Missing or
   * undecodable data is thereby replaced by an encoded empty list, and what
   * readers then see is what they saw before.
   */
  lemma LoadWritesBack(suite: Suite)
    requires suite.Some?
    ensures ReadItems(Write(suite, ReadItems(suite))) == ReadItems(suite)
    ensures StorageKey !in suite.value || suite.value[StorageKey].Malformed?
            ==> Write(suite, ReadItems(suite)).value[StorageKey] == Encoded([])
  {
    ReadAfterWrite(suite, ReadItems(suite));
  }

  class CountdownStore {
    var countdowns: seq<CountdownItem>
    /** `UserDefaults(suiteName: appGroupID)`; null when the suite is unavailable. */
    const defaults: Defaults?
    /** Whether `JSONEncoder().encode` succeeds on a list. */
    const encodable: seq<CountdownItem> -> bool
    /** Number of `WidgetCenter.shared.reloadAllTimelines()` requests made. */
    ghost var reloads: nat

    /** The suite as this store sees it. */
    function Snapshot(): Suite
      reads this, defaults
    {
      if defaults == null then None else Some(defaults.values)
    }

    /**
     * What a save leaves behind, given the suite and reload count before it:
     * on a successful encoding the current list is written (if the suite is
     * there) and one reload is requested; otherwise nothing changes.
     */
    ghost predicate SavedOver(before: Suite, reloadsBefore: nat)
      reads this, defaults
    {
      if encodable(countdowns) then
        Snapshot() == Write(before, countdowns) && reloads == reloadsBefore + 1
      else
        Snapshot() == before && reloads == reloadsBefore
    }

    /** Readers of the shared suite see exactly the in-memory list whenever it could be saved. */
    ghost predicate InSync()
      reads this, defaults
    {
      defaults != null && encodable(countdowns) ==> ReadItems(Snapshot()) == countdowns
    }

    /** `init()`: starts from `[]` and calls `load()`, whose assignment is then saved. */
    constructor (defaults: Defaults?, encodable: seq<CountdownItem> -> bool)
      modifies defaults
      ensures this.defaults == defaults && this.encodable == encodable
      ensures countdowns == ReadItems(old(if defaults == null then None else Some(defaults.values)))
      ensures SavedOver(old(if defaults == null then None else Some(defaults.values)), 0)
      ensures InSync()
    {
      this.defaults := defaults;
      this.encodable := encodable;
      countdowns := [];
      reloads := 0;
      new;
      Load();
    }

    /** `save()`: encode the list, write it to the suite if there is one, then request a reload. */
    method Save()
      modifies this`reloads, defaults
      ensures SavedOver(old(Snapshot()), old(reloads))
      ensures InSync()
    {
      if encodable(countdowns) {
        if defaults != null {
          defaults.values := defaults.values[StorageKey := Encoded(countdowns)];
        }
        reloads := reloads + 1;
      }
      if defaults != null && encodable(countdowns) {
        ReadAfterWrite(old(Snapshot()), countdowns);
      }
    }

    /** Assigning `countdowns`: the new value, then the `didSet` save. */
    method SetCountdowns(newValue: seq<CountdownItem>)
      modifies this, defaults
      ensures countdowns == newValue
      ensures SavedOver(old(Snapshot()), old(reloads))
      ensures InSync()
    {
      countdowns := newValue;
      Save();
    }

    /**
     * `load()`: the decoded list, or `[]` when the suite is unavailable, the
     * key is absent or decoding fails; the assignment saves it back.
     */
    method Load()
      modifies this, defaults
      ensures countdowns == ReadItems(old(Snapshot()))
      ensures SavedOver(old(Snapshot()), old(reloads))
      ensures InSync()
    {
      var items: seq<CountdownItem> := [];
      if defaults != null && StorageKey in defaults.values {
        match Decode(defaults.values[StorageKey])
        case Some(decoded) => items := decoded;
        case None => items := [];
      }
      SetCountdowns(items);
    }

    /** `add(_:)`: appends, without any check that the id is new. */
    method Add(item: CountdownItem)
      modifies this, defaults
      ensures countdowns == old(countdowns) + [item]
      ensures SavedOver(old(Snapshot()), old(reloads))
      ensures InSync()
    {
      SetCountdowns(countdowns + [item]);
    }

    /** `delete(at:)`: removes the elements at the given positions, which must be in range. */
    method Delete(offsets: set<nat>)
      requires forall o :: o in offsets ==> o < |countdowns|
      modifies this, defaults
      ensures countdowns == RemoveOffsets(old(countdowns), offsets)
      ensures SavedOver(old(Snapshot()), old(reloads))
      ensures InSync()
    {
      SetCountdowns(RemoveOffsets(countdowns, offsets));
    }

    /** `update(_:)`: replaces the first element with the same id; assigns (and saves) only on a match. */
    method Update(item: CountdownItem)
      modifies this, defaults
      ensures countdowns == ReplaceFirstById(old(countdowns), item)
      ensures (exists j :: 0 <= j < |old(countdowns)| && old(countdowns)[j].id == item.id)
              ==> SavedOver(old(Snapshot()), old(reloads))
      ensures (forall j :: 0 <= j < |old(countdowns)| ==> old(countdowns)[j].id != item.id)
              ==> countdowns == old(countdowns) && Snapshot() == old(Snapshot()) && reloads == old(reloads)
      ensures old(InSync()) ==> InSync()
    {
      var index := FirstIndexWhere(countdowns, (x: CountdownItem) => x.id == item.id);
      match index
      case Some(i) => SetCountdowns(countdowns[i := item]);
      case None =>
    }
  }

  /**
   * A countdown added in the app is what a store created afterwards over the
   * same suite loads, provided the list could be encoded.
   */
  method ReopenAfterAdd(defaults: Defaults, encodable: seq<CountdownItem> -> bool, item: CountdownItem)
    returns (first: CountdownStore, second: CountdownStore)
    modifies defaults
    ensures first.countdowns == ReadItems(old(Some(defaults.values))) + [item]
    ensures encodable(first.countdowns) ==> second.countdowns == first.countdowns
  {
    first := new CountdownStore(defaults, encodable);
    first.Add(item);
    second := new CountdownStore(defaults, encodable);
  }
}
