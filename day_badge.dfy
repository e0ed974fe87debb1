/**
 * The day badge shown beside a countdown in the list rows and in every widget
 * size: "Today!" when the countdown is due, otherwise the count with "day" or
 * "days".
 */
module DayBadge {
  import opened CountdownItems

  datatype Badge = TodayBadge | CountBadge(days: nat, unit: string)

  function BadgeFor(item: CountdownItem, today: Day): (b: Badge)
    ensures b.TodayBadge? <==> IsToday(item, today)
    ensures b.CountBadge? ==> b.days >= 1 && b.days == item.targetDate - today
    ensures b.CountBadge? ==> (b.unit == "day" <==> b.days == 1)
    ensures b.CountBadge? ==> (b.unit == "days" <==> b.days != 1)
  {
    if IsToday(item, today) then TodayBadge
    else
      var n := DaysRemaining(item, today);
      CountBadge(n, if n == 1 then "day" else "days")
  }
}
