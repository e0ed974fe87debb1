/**
 * The countdown record: an id, a name and a target date, with the derived
 * day count and "is today" flag. Dates are calendar day numbers, the value a
 * date has after `startOfDay`; the current day is passed in as `today`.
 */
module CountdownItems {
  import opened Options
  import opened Uuids

  /** A calendar day number (a date normalised to the start of its day). */
  type Day = int

  /**
   * A countdown. The synthesised `Equatable` conformance compares id, name and
   * target date, as datatype equality does; names compare as character
   * sequences. The explicit `init(id:name:targetDate:)` is the constructor;
   * its default id (`UUID()`) is supplied by the caller.
   */
  datatype CountdownItem = CountdownItem(id: Uuid, name: string, targetDate: Day)

  /** `s[i]` is the first countdown in `s` whose id is `u`. */
  predicate IsFirstWithId(s: seq<CountdownItem>, i: int, u: Uuid) {
    0 <= i < |s| && s[i].id == u && forall j :: 0 <= j < i ==> s[j].id != u
  }

  /** The `.day` component of `dateComponents([.day], from: today, to: target)`. */
  function DayComponent(today: Day, target: Day): Option<int> {
    Some(target - today)
  }

  /** `max(components.day ?? 0, 0)`: a missing component counts as 0, negatives clamp to 0. */
  function ClampDays(day: Option<int>): (n: nat)
    ensures day.None? ==> n == 0
    ensures day.Some? && day.value >= 0 ==> n == day.value
    ensures day.Some? && day.value <= 0 ==> n == 0
  {
    if day.GetOr(0) > 0 then day.GetOr(0) else 0
  }

  /** `daysRemaining`: whole days from `today` to the target, never negative. */
  function DaysRemaining(item: CountdownItem, today: Day): (n: nat)
    ensures item.targetDate >= today ==> n == item.targetDate - today
    ensures item.targetDate <= today ==> n == 0
  {
    ClampDays(DayComponent(today, item.targetDate))
  }

  /** `isToday`: the day count is zero. */
  predicate IsToday(item: CountdownItem, today: Day) {
    DaysRemaining(item, today) == 0
  }

  /**
   * As written, `isToday` holds for the target day AND for every day after it:
   * a countdown whose date has passed is shown as "Today!".
   */
  lemma IsTodayIffReached(item: CountdownItem, today: Day)
    ensures IsToday(item, today) <==> item.targetDate <= today
  {
  }

  /** Ten days ahead, on the day, and a week late. */
  lemma DayCountExamples(id: Uuid, today: Day)
    ensures DaysRemaining(CountdownItem(id, "Trip", today + 10), today) == 10
    ensures !IsToday(CountdownItem(id, "Trip", today + 10), today)
    ensures DaysRemaining(CountdownItem(id, "Trip", today), today) == 0
    ensures IsToday(CountdownItem(id, "Trip", today), today)
    ensures DaysRemaining(CountdownItem(id, "Trip", today - 7), today) == 0
    ensures IsToday(CountdownItem(id, "Trip", today - 7), today)
  {
  }
}
