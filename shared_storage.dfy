/**
 * The app-group `UserDefaults` suite shared by the app and the widget
 * extension, and the JSON encoding of the countdown list stored in it. The
 * encoding is abstract: stored data is either an encoded list or something
 * that does not decode.
 */
module SharedStorage {
  import opened Options
  import opened CountdownItems

  /** The key the store writes and both extension readers read. */
  const StorageKey: string := "countdowns"

  /** The bytes stored under a key. */
  datatype Data = Encoded(items: seq<CountdownItem>) | Malformed

  /** `try? JSONDecoder().decode([CountdownItem].self, from:)`. */
  function Decode(d: Data): (r: Option<seq<CountdownItem>>)
    ensures r.None? <==> d.Malformed?
    ensures d.Encoded? ==> r == Some(d.items)
  {
    match d
    case Encoded(items) => Some(items)
    case Malformed => None
  }

  /** What `UserDefaults(suiteName: "group.com.shawjj.countdownwidget")` sees: `None` when the suite is unavailable. */
  type Suite = Option<map<string, Data>>

  /**
   * The guard shared by the store's `load`, the widget's `loadCountdowns` and
   * the picker's `loadAll`: the decoded list, or `[]` when the suite is
   * unavailable, the key is absent or the data does not decode.
   */
  function ReadItems(suite: Suite): (items: seq<CountdownItem>)
    ensures suite.None? ==> items == []
    ensures suite.Some? && StorageKey !in suite.value ==> items == []
    ensures suite.Some? && StorageKey in suite.value && suite.value[StorageKey].Malformed? ==> items == []
    ensures suite.Some? && StorageKey in suite.value && suite.value[StorageKey].Encoded?
            ==> items == suite.value[StorageKey].items
    ensures items != [] ==> suite.Some? && StorageKey in suite.value
                            && suite.value[StorageKey] == Encoded(items)
  {
    match suite
    case None => []
    case Some(values) =>
      if StorageKey !in values then []
      else Decode(values[StorageKey]).GetOr([])
  }

  /** `defaults?.set(encoded, forKey: storageKey)`: nothing happens when the suite is unavailable. */
  function Write(suite: Suite, items: seq<CountdownItem>): (r: Suite)
    ensures r.None? <==> suite.None?
    ensures r.Some? ==> r.value.Keys == suite.value.Keys + {StorageKey}
    ensures r.Some? ==> r.value[StorageKey] == Encoded(items)
    ensures r.Some? ==> forall k :: k in suite.value && k != StorageKey ==> r.value[k] == suite.value[k]
  {
    match suite
    case None => None
    case Some(values) => Some(values[StorageKey := Encoded(items)])
  }

  /** Whatever was written is what every reader of the suite decodes. */
  lemma ReadAfterWrite(suite: Suite, items: seq<CountdownItem>)
    requires suite.Some?
    ensures ReadItems(Write(suite, items)) == items
  {
  }

  /** Writing the same list twice leaves the same stored data as writing it once. */
  lemma WriteIdempotent(suite: Suite, items: seq<CountdownItem>)
    ensures Write(Write(suite, items), items) == Write(suite, items)
  {
    if suite.Some? {
      var once := suite.value[StorageKey := Encoded(items)];
      assert once[StorageKey := Encoded(items)] == once;
    }
  }

  /** The shared suite itself: one object that the store writes and readers snapshot. */
  class Defaults {
    var values: map<string, Data>

    constructor (values: map<string, Data>)
      ensures this.values == values
    {
      this.values := values;
    }
  }
}
