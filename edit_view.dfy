/**
 * The edit screen for one countdown: the form starts from the item, Save
 * writes the trimmed name and chosen date back under the same id, and Delete
 * removes every countdown with that id.
 */
module EditView {
  import opened ArrayOps
  import opened Uuids
  import opened CountdownItems
  import opened Trimming
  import opened CountdownForm
  import opened Store

  /** The screen's state: the id it edits and the two editable fields. */
  datatype EditForm = EditForm(itemId: Uuid, name: string, targetDate: Day)

  /** `init(item:)`: the fields start as the item's. */
  function EditFormFor(item: CountdownItem): (f: EditForm)
    ensures CountdownItem(f.itemId, f.name, f.targetDate) == item
  {
    EditForm(item.id, item.name, item.targetDate)
  }

  /** Updating never changes an id at any position, so an edit keeps the countdown's identity. */
  lemma {:induction false} UpdateKeepsIds(items: seq<CountdownItem>, item: CountdownItem)
    ensures |ReplaceFirstById(items, item)| == |items|
    ensures forall k :: 0 <= k < |items| ==> ReplaceFirstById(items, item)[k].id == items[k].id
  {
    var p := (x: CountdownItem) => x.id == item.id;
    if (forall j :: 0 <= j < |items| ==> items[j].id != item.id) {
    } else {
      var i := FirstIndexWhere(items, p).value;
      assert items[i].id == item.id && forall j :: 0 <= j < i ==> items[j].id != item.id;
    }
  }

  /** Save: `store.update(updated)`. */
  method Save(store: CountdownStore, f: EditForm)
    requires !AllWhitespace(f.name)  // Save is enabled
    modifies store, store.defaults
    ensures store.countdowns == ReplaceFirstById(old(store.countdowns), FormItem(f.itemId, f.name, f.targetDate))
    ensures (exists j :: 0 <= j < |old(store.countdowns)| && old(store.countdowns)[j].id == f.itemId)
            ==> store.SavedOver(old(store.Snapshot()), old(store.reloads))
    ensures (forall j :: 0 <= j < |old(store.countdowns)| ==> old(store.countdowns)[j].id != f.itemId)
            ==> store.countdowns == old(store.countdowns)
                && store.Snapshot() == old(store.Snapshot()) && store.reloads == old(store.reloads)
    ensures old(store.InSync()) ==> store.InSync()
  {
    store.Update(FormItem(f.itemId, f.name, f.targetDate));
  }

  /** The list after Delete: `removeAll { $0.id == itemID }`. */
  function WithoutId(items: seq<CountdownItem>, id: Uuid): (r: seq<CountdownItem>)
    ensures forall x :: x in r ==> x.id != id
    ensures forall x: CountdownItem :: x.id != id ==> multiset(r)[x] == multiset(items)[x]
    ensures IsSubsequence(r, items)
  {
    var r := Filter(items, (x: CountdownItem) => x.id != id);
    assert forall x :: x in r ==> multiset(r)[x] > 0;
    r
  }

  /** Delete: every countdown with the edited id goes, in one assignment (one save). */
  method Delete(store: CountdownStore, f: EditForm)
    modifies store, store.defaults
    ensures store.countdowns == WithoutId(old(store.countdowns), f.itemId)
    ensures store.SavedOver(old(store.Snapshot()), old(store.reloads))
    ensures store.InSync()
  {
    store.SetCountdowns(Filter(store.countdowns, (x: CountdownItem) => x.id != f.itemId));
  }
}
