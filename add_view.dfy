/**
 * The new-countdown sheet: an empty name and tomorrow's date to start with;
 * Save appends an item with the trimmed name, Cancel only dismisses.
 */
module AddView {
  import opened Options
  import opened Uuids
  import opened CountdownItems
  import opened Trimming
  import opened CountdownForm
  import opened Store

  datatype AddForm = AddForm(name: string, targetDate: Day)

  /** `Calendar.date(byAdding: .day, value: days, to:)`, which on day numbers always succeeds. */
  function AddingDays(day: Day, days: int): Option<Day> {
    Some(day + days)
  }

  /** The sheet's initial state: no name, and the day after `today` (or `today` should adding fail). */
  function NewForm(today: Day): (f: AddForm)
    ensures f.name == [] && f.targetDate == today + 1
    ensures SaveDisabled(f.name)
  {
    AddForm("", AddingDays(today, 1).GetOr(today))
  }

  /** Save: `store.add(item)`, with `id` standing for the `UUID()` the initializer draws. */
  method Save(store: CountdownStore, f: AddForm, id: Uuid)
    requires !AllWhitespace(f.name)  // Save is enabled
    modifies store, store.defaults
    ensures store.countdowns == old(store.countdowns) + [FormItem(id, f.name, f.targetDate)]
    ensures store.SavedOver(old(store.Snapshot()), old(store.reloads))
    ensures store.InSync()
  {
    store.Add(FormItem(id, f.name, f.targetDate));
  }

  /** Cancel: dismisses the sheet; the store is left as it was. */
  method Cancel(store: CountdownStore)
    ensures store.countdowns == old(store.countdowns)
    ensures store.Snapshot() == old(store.Snapshot()) && store.reloads == old(store.reloads)
  {
  }
}
