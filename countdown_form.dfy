/**
 * The rules the add and edit forms share: Save is disabled while the trimmed
 * name is empty, and Save builds the item from the trimmed name.
 */
module CountdownForm {
  import opened Uuids
  import opened CountdownItems
  import opened Trimming

  /** `.disabled(name.trimmingCharacters(in: .whitespaces).isEmpty)`. */
  predicate SaveDisabled(name: string)
    ensures SaveDisabled(name) <==> AllWhitespace(name)
  {
    TrimEmptyIffBlank(name);
    Trim(name) == []
  }

  /**
   * `CountdownItem(id:name:targetDate:)` with the trimmed name, as Save builds
   * it while enabled: the name is the non-empty slice of what was typed that
   * is left once the whitespace at both ends is cut off.
   */
  function FormItem(id: Uuid, name: string, targetDate: Day): (item: CountdownItem)
    requires !AllWhitespace(name)
    ensures item.id == id && item.targetDate == targetDate
    ensures item.name != [] && !IsWhitespace(item.name[0]) && !IsWhitespace(item.name[|item.name| - 1])
    ensures exists a, b :: 0 <= a <= b <= |name| && item.name == name[a..b]
                          && AllWhitespace(name[..a]) && AllWhitespace(name[b..])
    ensures item.name == Trim(name)
  {
    TrimEmptyIffBlank(name);
    CountdownItem(id, Trim(name), targetDate)
  }
}
