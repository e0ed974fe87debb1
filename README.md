# CountdownWidget in Dafny

A model of the countdown app and its home-screen widget. Users keep a list of
named countdowns, each with a target date. The app shows them in date order
and lets the user add, edit and delete them. Every change to the list is
written to an app-group `UserDefaults` suite. The widget extension reads that
suite to feature one countdown (the configured one, or else the earliest) or,
in the large size, the five earliest. Its configuration picker offers the
stored countdowns as entities identified by their UUID strings.

Conventions of the model:

- A date is an integer day number: the value a date has after `startOfDay`.
  The current day is a parameter `today`, never read from a clock.
- A UUID is its 32 hexadecimal digits. `uuidString` prints them upper-case,
  grouped 8-4-4-4-12 with hyphens. `UUID(uuidString:)` reads that form in
  either letter case and fails on anything else.
- The JSON encoding is abstract. Stored data is `Encoded(items)` or
  `Malformed`. Whether `JSONEncoder` succeeds on a list is the store's constant
  predicate `encodable`.
- The app-group suite is a `Defaults` object holding a map from keys to data.
  The store holds a nullable reference to it: null is a suite that could not
  be opened. The widget and the picker read an immutable snapshot of it (a
  `Suite`, `None` when unavailable).
- `CountdownStore` is a class. Its `didSet` observer is the method
  `SetCountdowns`: assign, then `Save`. `Add`, `Delete`, `Update` and `Load`
  all go through it, and so do the views' in-place `removeAll` calls. The
  ghost counter `reloads` counts `reloadAllTimelines()` requests.
- The synthesised `Equatable` of `CountdownItem` is datatype equality: equal
  id, name and target date. The explicit `init(id:name:targetDate:)` is the
  datatype constructor; the default `UUID()` is a parameter supplied by the
  caller.

Behaviours of the code a reader might not expect:

- `isToday` is `daysRemaining == 0`. Since the day count clamps at zero, it is
  also true for every target date already in the past, not only for today
  (`CountdownItems.IsTodayIffReached`). A countdown a week late shows "Today!".
- The store does not key countdowns by id. `add` appends without checking for
  a duplicate id. `update` replaces only the first match. `delete(at:)`
  removes by position. Deleting by id happens in the list and edit screens.
- `save` requests a widget reload only when encoding succeeds, even when the
  suite is unavailable and nothing was written.

## Model

| member | source | states |
|---|---|---|
| ArrayOps.FirstIndexWhere | CountdownWidget/Shared/CountdownStore.swift:45 | `firstIndex(where:)` returns an index whose element satisfies the test, with no earlier element doing so; it returns none exactly when no element does |
| ArrayOps.Filter | CountdownWidget/CountdownWidget/CountdownListView.swift:32 | `removeAll(where:)` / `filter` keep each element that passes with its full multiplicity and drop every other element; the survivors keep their relative order |
| ArrayOps.SurvivorsExact | CountdownWidget/Shared/CountdownStore.swift:40-42 | the surviving positions are strictly ascending and are exactly the in-range positions not in the offset set |
| ArrayOps.RemoveOffsetsExact | CountdownWidget/Shared/CountdownStore.swift:40-42 | `remove(atOffsets:)` with in-range offsets shortens the array by exactly the number of offsets, and the result lists the elements at the surviving positions in ascending order |
| ArrayOps.RemoveNoOffsets | CountdownWidget/Shared/CountdownStore.swift:40-42 | removing an empty offset set leaves the array unchanged |
| Uuids.UuidString | CountdownWidget/CountdownWidgetExtension/SelectCountdownIntent.swift:38 | `uuidString` is 36 characters long |
| Uuids.ParseUuid | CountdownWidget/CountdownWidgetExtension/CountdownTimelineWidget.swift:53 | `UUID(uuidString:)` succeeds only on 36-character strings |
| Uuids.ParseUuidString | CountdownWidget/CountdownWidgetExtension/CountdownTimelineWidget.swift:52-55 | parsing the `uuidString` of a UUID gives back that UUID |
| Uuids.UuidStringInjective | CountdownWidget/CountdownWidgetExtension/SelectCountdownIntent.swift:38 | two UUIDs have the same string exactly when they are equal, so an entity id names one item id |
| Trimming.Trim | CountdownWidget/CountdownWidget/AddCountdownView.swift:29 | the trimmed name is a slice of the name; everything cut off is `.whitespaces`; the result neither starts nor ends with such a character |
| Trimming.TrimEmptyIffBlank | CountdownWidget/CountdownWidget/AddCountdownView.swift:33 | the trimmed name is empty exactly when every character of the name is a `.whitespaces` character |
| Trimming.TrimIdempotent | CountdownWidget/CountdownWidget/AddCountdownView.swift:29 | trimming an already trimmed name changes nothing |
| Trimming.NewlinesAreKept | CountdownWidget/CountdownWidget/AddCountdownView.swift:29 | a line break is not in `.whitespaces`: trimming " \n " leaves "\n" |
| CountdownItems.ClampDays | CountdownWidget/Shared/CountdownItem.swift:13 | a missing day component counts as 0; a non-negative one is kept; a negative one becomes 0 |
| CountdownItems.DaysRemaining | CountdownWidget/Shared/CountdownItem.swift:8-14 | never negative; equals target minus today when the target is today or later, and 0 when it is today or earlier |
| CountdownItems.IsTodayIffReached | CountdownWidget/Shared/CountdownItem.swift:16-18 | `isToday` holds exactly when the target day is today or already past |
| CountdownItems.DayCountExamples | CountdownWidget/Shared/CountdownItem.swift:8-18 | ten days ahead counts 10 and is not today; on the day counts 0 and is today; a week late counts 0 and is today |
| DateOrder.InsertByDate | CountdownWidget/CountdownWidget/CountdownListView.swift:24 | inserting into a date-sorted list keeps it sorted and adds exactly the one item |
| DateOrder.SortByDate | CountdownWidget/CountdownWidget/CountdownListView.swift:24 | `sorted(by: targetDate <)` is ascending by target date and is a permutation of its input |
| DateOrder.SortedFirstIsEarliest | CountdownWidget/CountdownWidgetExtension/CountdownTimelineWidget.swift:58-60 | the first item of the sorted list is a member of the list and no item is dated earlier |
| DayBadge.BadgeFor | CountdownWidget/CountdownWidget/CountdownListView.swift:65-78 | "Today!" exactly when `isToday`; otherwise a count of at least 1 equal to target minus today, with "day" exactly when the count is 1 and "days" exactly when it is not |
| SharedStorage.Decode | CountdownWidget/Shared/CountdownStore.swift:23 | decoding fails exactly on malformed data and returns the encoded list otherwise |
| SharedStorage.ReadItems | CountdownWidget/CountdownWidgetExtension/CountdownTimelineWidget.swift:42-49 | `loadCountdowns` gives `[]` when the suite is unavailable, the key is absent or the data is malformed; an encoded list under the key is returned exactly as encoded |
| SharedStorage.Write | CountdownWidget/Shared/CountdownStore.swift:31-32 | writing to an unavailable suite does nothing; otherwise the storage key holds the encoded list afterwards and every other key is left as it was |
| SharedStorage.ReadAfterWrite | CountdownWidget/Shared/CountdownStore.swift:30-33 | after a write to an available suite, every reader decodes exactly the written list |
| SharedStorage.WriteIdempotent | CountdownWidget/Shared/CountdownStore.swift:30-33 | saving the same list twice leaves the same stored data as saving it once |
| Store.ReplaceFirstById | CountdownWidget/Shared/CountdownStore.swift:44-48 | `update` keeps the length; with no element carrying the id the list is unchanged; otherwise only the first such element is replaced |
| Store.LoadWritesBack | CountdownWidget/Shared/CountdownStore.swift:21-28 | what `load` writes back through `didSet` reads back as what it loaded; missing or malformed data is replaced by an encoded empty list |
| Store.CountdownStore.constructor | CountdownWidget/Shared/CountdownStore.swift:13-15 | a new store holds what the suite held (or `[]`) and has saved it back |
| Store.CountdownStore.Save | CountdownWidget/Shared/CountdownStore.swift:30-34 | on a successful encoding the list is written (if the suite exists) and one reload is requested; on a failed encoding nothing changes; afterwards readers see the list whenever it could be saved |
| Store.CountdownStore.SetCountdowns | CountdownWidget/Shared/CountdownStore.swift:9-11 | every assignment of `countdowns` is followed by a save |
| Store.CountdownStore.Load | CountdownWidget/Shared/CountdownStore.swift:21-28 | `countdowns` becomes the decoded list or `[]`, and that value is saved back |
| Store.CountdownStore.Add | CountdownWidget/Shared/CountdownStore.swift:36-38 | the new list is the old list with the item appended, then saved |
| Store.CountdownStore.Delete | CountdownWidget/Shared/CountdownStore.swift:40-42 | the new list is the old one without the elements at the given in-range offsets, then saved |
| Store.CountdownStore.Update | CountdownWidget/Shared/CountdownStore.swift:44-48 | the first element with the item's id is replaced and the list saved; with no match nothing changes at all, no save included |
| Store.ReopenAfterAdd | CountdownWidget/Shared/CountdownStore.swift:13-38 | after an add, a store created later over the same suite loads exactly the adding store's list, provided that list could be encoded |
| TimelineWidget.FirstWithId | CountdownWidget/CountdownWidgetExtension/CountdownTimelineWidget.swift:54 | `first(where:)` on the id gives the first item with that id, a member of the list, or none exactly when no item has it |
| TimelineWidget.SelectedCountdown | CountdownWidget/CountdownWidgetExtension/CountdownTimelineWidget.swift:51-61 | the first item whose id the configured identifier parses to; failing that, an item with the earliest date; none exactly when the list is empty; always a member of the list |
| TimelineWidget.SnapshotEntry | CountdownWidget/CountdownWidgetExtension/CountdownTimelineWidget.swift:24-28 | the entry carries today, the full loaded list and the countdown `selectedCountdown` picks from it (the configured one, otherwise an earliest), absent exactly when the list is empty |
| TimelineWidget.GetTimeline | CountdownWidget/CountdownWidgetExtension/CountdownTimelineWidget.swift:30-40 | exactly one entry, the snapshot entry, and a refresh at the start of the next day |
| TimelineWidget.Placeholder | CountdownWidget/CountdownWidgetExtension/CountdownTimelineWidget.swift:16-22 | a sample "My Event" ten days away and an empty list |
| TimelineWidget.LargeWidgetRows | CountdownWidget/CountdownWidgetExtension/CountdownTimelineWidget.swift:199-222 | `sorted.prefix(5)` holds at most five rows (all the countdowns when fewer), sorted by date and drawn from the list |
| TimelineWidget.LargeWidgetShowsEarliest | CountdownWidget/CountdownWidgetExtension/CountdownTimelineWidget.swift:222 | no countdown left out of the large widget is dated earlier than one it shows |
| TimelineWidget.LargeWidget | CountdownWidget/CountdownWidgetExtension/CountdownTimelineWidget.swift:198-222 | the empty state exactly when there are no countdowns; otherwise exactly `sorted.prefix(5)`, the `LargeWidgetRows` of the list: between one and five rows, the earliest ones, in date order |
| EntityQuery.EntitiesOf | CountdownWidget/CountdownWidgetExtension/SelectCountdownIntent.swift:38 | one entity per item, in the same order, each with the item's UUID string and name |
| EntityQuery.LoadAll | CountdownWidget/CountdownWidgetExtension/SelectCountdownIntent.swift:30-39 | nothing when the stored list cannot be read; otherwise the entities of a date-sorted permutation of the stored list |
| EntityQuery.EntitiesFor | CountdownWidget/CountdownWidgetExtension/SelectCountdownIntent.swift:17-20 | exactly the loaded entities whose id was requested, each with its full multiplicity, in loaded order rather than request order; none for no identifiers |
| EntityQuery.SuggestedEntities | CountdownWidget/CountdownWidgetExtension/SelectCountdownIntent.swift:22-24 | `loadAll()` itself: the entities of a date-sorted permutation of the stored countdowns, one per countdown |
| EntityQuery.DefaultResult | CountdownWidget/CountdownWidgetExtension/SelectCountdownIntent.swift:26-28 | the entity of an earliest-dated countdown, none exactly when there are no countdowns |
| EntityQuery.ChosenEntityIsFeatured | CountdownWidget/CountdownWidgetExtension/CountdownTimelineWidget.swift:52-55 | configuring the widget with any offered entity makes the provider feature the first stored countdown with that entity's id |
| ListView.ListContent | CountdownWidget/CountdownWidget/CountdownListView.swift:9-24 | the empty state exactly when there are no countdowns; otherwise rows that are the countdowns sorted by date, in exactly the `SortByDate` order that swipe offsets are resolved against |
| ListView.SwipedRowIsDeleted | CountdownWidget/CountdownWidget/CountdownListView.swift:24-32 | the row shown at a swiped offset is the one whose id no longer appears after the delete |
| ListView.IdsAtOffsets | CountdownWidget/CountdownWidget/CountdownListView.swift:31 | the resolved ids are exactly the ids of the sorted rows at the swiped offsets |
| ListView.DeleteAtSortedOffsets | CountdownWidget/CountdownWidget/CountdownListView.swift:29-32 | no countdown carrying a swiped row's id survives, duplicates elsewhere included; every other countdown survives with its multiplicity, in its original order |
| ListView.DeleteNoOffsets | CountdownWidget/CountdownWidget/CountdownListView.swift:29-32 | swiping nothing away changes nothing |
| ListView.OnDelete | CountdownWidget/CountdownWidget/CountdownListView.swift:29-33 | the store's list becomes the list after deletion at sorted offsets, in one assignment and one save |
| EditView.EditFormFor | CountdownWidget/CountdownWidget/EditCountdownView.swift:11-15 | the form starts with the item's id, name and date |
| EditView.UpdateKeepsIds | CountdownWidget/CountdownWidget/EditCountdownView.swift:38-39 | an update changes no id at any position of the list |
| EditView.Save | CountdownWidget/CountdownWidget/EditCountdownView.swift:37-41 | while Save is enabled, the store's list is updated with an item carrying the original id, the trimmed name and the chosen date; on a match the list is saved through `didSet`, and with no match nothing changes, suite and reload count included |
| EditView.WithoutId | CountdownWidget/CountdownWidget/EditCountdownView.swift:28 | no countdown with the id survives; every other countdown survives with its multiplicity, in order |
| EditView.Delete | CountdownWidget/CountdownWidget/EditCountdownView.swift:27-30 | the store's list loses every countdown with the edited id, in one assignment and one save |
| AddView.NewForm | CountdownWidget/CountdownWidget/AddCountdownView.swift:7-8 | the sheet starts with an empty name, tomorrow's date and Save disabled |
| CountdownForm.SaveDisabled | CountdownWidget/CountdownWidget/AddCountdownView.swift:33 | Save is disabled exactly when the name consists of whitespace only (the same rule guards Save in EditCountdownView.swift:42) |
| CountdownForm.FormItem | CountdownWidget/CountdownWidget/AddCountdownView.swift:29 | the item Save builds (here and in EditCountdownView.swift:38) has the given id and the chosen date; its name is exactly the trimmed name: the non-empty slice of the typed name left once the `.whitespaces` characters at both ends are cut off |
| AddView.Save | CountdownWidget/CountdownWidget/AddCountdownView.swift:28-32 | while Save is enabled, exactly one new item with the fresh id, the trimmed name and the chosen date is appended to the store's list, then saved |
| AddView.Cancel | CountdownWidget/CountdownWidget/AddCountdownView.swift:25 | the store's list, the suite and the reload count are unchanged |

## Left out

- SwiftUI and WidgetKit view bodies, fonts and layout are left out. So are the
  `Widget` and `IntentConfiguration` registration, `dismiss()` and
  `CountdownWidgetApp.swift`. Of the small and medium widgets, only their
  shared badge rule (`DayBadge.BadgeFor`) is modelled.
- JSON bytes are not modelled. `Date` encodes as a floating-point timestamp, so
  a byte-level round trip is not attempted. Encoding failure is the opaque
  predicate `encodable`.
- Calendar arithmetic, time zones and daylight saving are left out. Dates are
  day numbers, so the time of day inside a stored `targetDate` is not kept.
  Two countdowns on the same day therefore tie in the sort, where Swift would
  order them by time.
- DateOrder.SortByDate: the function is a stable insertion sort, but its
  contract promises only "sorted and a permutation". Swift does not document
  the order of ties.
- `UUID()` generation is not modelled. A new item's id is a parameter, and
  nothing makes it unique; the source does not check uniqueness either.
- Uuids.ParseUuid: only the 8-4-4-4-12 hexadecimal form is accepted. Version
  and variant bits are not checked, and no other spelling Foundation might
  accept is modelled.
- `intent.countdown?.identifier` is taken to be the configured entity's `id`
  string.
- The timeline entry's `Date()` is modelled as `today`.
- `WidgetCenter.shared.reloadAllTimelines()` is only counted, by the ghost
  field `reloads`.
- The `async` entity query, cross-process sharing between app and widget, the
  `CountdownStore.shared` singleton and `@Published`/`@EnvironmentObject`
  observation are left out.
- Names compare as sequences of characters. Swift's `String` equality uses
  Unicode canonical equivalence, so `"é"` and `"e\u{301}"` are equal there
  and unequal here. No modelled operation compares names.
- Swift `Int` overflow in the day count is not modelled; integers are unbounded.
