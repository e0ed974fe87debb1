/**
 * The widget extension's timeline provider and the large widget's list. The
 * provider reads the shared suite, picks the countdown to feature and asks to
 * be refreshed at the start of the next day.
 */
module TimelineWidget {
  import opened Options
  import opened ArrayOps
  import opened Uuids
  import opened CountdownItems
  import opened DateOrder
  import opened SharedStorage

  /** `first(where: { $0.id == u })`. */
  function FirstWithId(s: seq<CountdownItem>, u: Uuid): (r: Option<CountdownItem>)
    ensures r.None? <==> forall j :: 0 <= j < |s| ==> s[j].id != u
    ensures r.Some? ==> r.value in s && r.value.id == u
    ensures forall i :: IsFirstWithId(s, i, u) ==> r == Some(s[i])
  {
    match FirstIndexWhere(s, (x: CountdownItem) => x.id == u)
    case Some(i) => Some(s[i])
    case None => None
  }

  /** The UUID named by the widget's configured identifier, when there is one and it parses. */
  function ConfiguredId(configured: Option<string>): Option<Uuid> {
    match configured
    case Some(text) => ParseUuid(text)
    case None => None
  }

  /**
   * `selectedCountdown(from:intent:)`, where `configured` is the identifier of
   * the countdown chosen in the widget's configuration. The configured item
   * wins (its first occurrence); otherwise an earliest-dated item; none only
   * for an empty list.
   */
  function SelectedCountdown(countdowns: seq<CountdownItem>, configured: Option<string>): (r: Option<CountdownItem>)
    ensures r.None? <==> countdowns == []
    ensures r.Some? ==> r.value in countdowns
    ensures ConfiguredId(configured).Some?
            && (exists j :: 0 <= j < |countdowns| && countdowns[j].id == ConfiguredId(configured).value)
            ==> r.Some? && r.value.id == ConfiguredId(configured).value
    ensures ConfiguredId(configured).Some? ==>
              forall i :: IsFirstWithId(countdowns, i, ConfiguredId(configured).value) ==> r == Some(countdowns[i])
    ensures (ConfiguredId(configured).None?
             || forall j :: 0 <= j < |countdowns| ==> countdowns[j].id != ConfiguredId(configured).value)
            ==> forall x :: r.Some? && x in countdowns ==> r.value.targetDate <= x.targetDate
  {
    var matched := match ConfiguredId(configured)
                   case Some(u) => FirstWithId(countdowns, u)
                   case None => None;
    if matched.Some? then
      assert FirstWithId(countdowns, ConfiguredId(configured).value).Some?;
      matched
    else if countdowns == [] then None
    else
      SortedFirstIsEarliest(countdowns);
      Some(SortByDate(countdowns)[0])
  }

  /** `CountdownEntry`: the entry's date, the featured countdown and the whole list. */
  datatype Entry = Entry(date: Day, countdown: Option<CountdownItem>, allCountdowns: seq<CountdownItem>)

  /** A timeline and the day at whose start WidgetKit should ask for the next one (`.after`). */
  datatype Timeline = Timeline(entries: seq<Entry>, refreshAt: Day)

  /** `getSnapshot`: one entry for now, with the selection made from the loaded list. */
  function SnapshotEntry(suite: Suite, configured: Option<string>, today: Day): (e: Entry)
    ensures e.date == today && e.allCountdowns == ReadItems(suite)
    ensures e.countdown == SelectedCountdown(ReadItems(suite), configured)
    ensures e.countdown.Some? ==> e.countdown.value in e.allCountdowns
    ensures e.countdown.None? <==> e.allCountdowns == []
  {
    var countdowns := ReadItems(suite);
    Entry(today, SelectedCountdown(countdowns, configured), countdowns)
  }

  /**
   * `getTimeline`: a single entry, the same one a snapshot gives, refreshed at
   * the start of tomorrow so that day counts roll over at midnight.
   */
  function GetTimeline(suite: Suite, configured: Option<string>, today: Day): (t: Timeline)
    ensures |t.entries| == 1 && t.entries[0] == SnapshotEntry(suite, configured, today)
    ensures t.refreshAt == today + 1
  {
    Timeline([SnapshotEntry(suite, configured, today)], today + 1)
  }

  /** `placeholder(in:)`: a sample countdown ten days out and no list. */
  function Placeholder(today: Day, id: Uuid): (e: Entry)
    ensures e.date == today && e.allCountdowns == []
    ensures e.countdown.Some? && e.countdown.value.name == "My Event"
    ensures DaysRemaining(e.countdown.value, today) == 10
  {
    Entry(today, Some(CountdownItem(id, "My Event", today + 10)), [])
  }

  const LargeWidgetRowLimit: nat := 5

  /** `sorted.prefix(5)` in the large widget. */
  function LargeWidgetRows(countdowns: seq<CountdownItem>): (rows: seq<CountdownItem>)
    ensures |rows| == if |countdowns| < LargeWidgetRowLimit then |countdowns| else LargeWidgetRowLimit
    ensures SortedByDate(rows)
    ensures multiset(rows) <= multiset(countdowns)
  {
    var sorted := SortByDate(countdowns);
    var n := if |sorted| < LargeWidgetRowLimit then |sorted| else LargeWidgetRowLimit;
    assert sorted == sorted[..n] + sorted[n..];
    sorted[..n]
  }

  /** The large widget shows the earliest countdowns: nothing it leaves out is earlier than a row it shows. */
  lemma LargeWidgetShowsEarliest(countdowns: seq<CountdownItem>)
    ensures forall x, y :: x in LargeWidgetRows(countdowns)
                           && y in multiset(countdowns) - multiset(LargeWidgetRows(countdowns))
              ==> x.targetDate <= y.targetDate
  {
    var sorted := SortByDate(countdowns);
    var rows := LargeWidgetRows(countdowns);
    var rest := sorted[|rows|..];
    assert sorted == rows + rest;
    assert multiset(countdowns) - multiset(rows) == multiset(rest);
    forall x, y | x in rows && y in multiset(rest)
      ensures x.targetDate <= y.targetDate
    {
      SortedSplit(sorted, |rows|, x, y);
    }
  }

  lemma SortedSplit(s: seq<CountdownItem>, n: nat, x: CountdownItem, y: CountdownItem)
    requires SortedByDate(s) && n <= |s|
    requires x in s[..n] && y in s[n..]
    ensures x.targetDate <= y.targetDate
  {
    var i :| 0 <= i < n && s[..n][i] == x;
    var j :| 0 <= j < |s| - n && s[n..][j] == y;
    assert s[i] == x && s[n + j] == y;
  }

  /** What the large widget draws: an empty-state message, or its rows. */
  datatype LargeFace = NoCountdowns | Rows(rows: seq<CountdownItem>)

  function LargeWidget(countdowns: seq<CountdownItem>): (face: LargeFace)
    ensures face.NoCountdowns? <==> countdowns == []
    ensures face.Rows? ==> 1 <= |face.rows| <= LargeWidgetRowLimit
    ensures face.Rows? ==> face.rows == LargeWidgetRows(countdowns)
  {
    if countdowns == [] then NoCountdowns else Rows(LargeWidgetRows(countdowns))
  }
}
