/** time_stats: the most popular month, weekday and starting hour. */
module Times {
  import opened Wrappers
  import opened Trips
  import opened Names
  import opened Freq

  /** "h:00 to (h+1):00", where the hour after 23 is written 00. */
  datatype HourRange = HourRange(from: int, to: int)

  /** The range label of an hour of the day ends on the next hour of the
      clock, so only 23 ends on 00. */
  function HourRangeOf(h: int): (range: HourRange)
    ensures 0 <= h <= 23 ==> range.from == h && range.to == (h + 1) % 24
    ensures 0 <= h <= 23 ==> (range.to == 0 <==> h == 23)
  {
    if h == 23 then HourRange(23, 0) else HourRange(h, h + 1)
  }

  datatype TimeSummary = TimeSummary(
    month: int, monthName: string,
    weekday: int, dayName: string,
    hour: int, hours: HourRange)

  /** What time_stats prints for a non-empty table: the smallest most
      frequent month, weekday and hour, the list entries the name lookups
      stop on (printing title-cases them), and the hour's range label. */
  ghost predicate DescribesTimes(rows: seq<Trip>, s: TimeSummary)
  {
    && IsMode(Months(rows), s.month, IntLe)
    && IsMode(Weekdays(rows), s.weekday, IntLe)
    && IsMode(Hours(rows), s.hour, IntLe)
    && Labelled(s)
  }

  /** The names the lookups stop on for the summary's month and weekday,
      with the fall-through to the last entry, and its hour's range label. */
  predicate Labelled(s: TimeSummary)
  {
    && (1 <= s.month <= 6 ==> s.monthName == MonthNames[s.month - 1])
    && (s.month > 6 ==> s.monthName == MonthNames[5])
    && 0 <= s.weekday <= 6 && s.dayName == DayNames[s.weekday]
    && 0 <= s.hour <= 23 && s.hours == HourRange(s.hour, (s.hour + 1) % 24)
  }

  /** What time_stats reports for a table, or NoData where mode()[0] of an
      empty column would raise. */
  function TimeStatsOf(rows: seq<Trip>): (r: Stat<TimeSummary>)
    ensures r.NoData? <==> rows == []
    ensures !r.Unavailable?
    ensures r.Found? ==> DescribesTimes(rows, r.value)
  {
    if rows == [] then NoData
    else
      var s := Summary(PopularMonth(rows), PopularWeekday(rows), PopularHour(rows));
      assert DescribesTimes(rows, s);
      Found(s)
  }

  /** df['month'].mode()[0] */
  function PopularMonth(rows: seq<Trip>): (m: int)
    requires rows != []
    ensures IsMode(Months(rows), m, IntLe) && 1 <= m <= 12
  {
    IntLeTotal();
    ColumnRanges(rows);
    Mode<int>(Months(rows), IntLe)
  }

  /** df['day_of_week'].mode()[0], once the column holds ordinals. */
  function PopularWeekday(rows: seq<Trip>): (d: int)
    requires rows != []
    ensures IsMode(Weekdays(rows), d, IntLe) && 0 <= d <= 6
  {
    IntLeTotal();
    ColumnRanges(rows);
    Mode<int>(Weekdays(rows), IntLe)
  }

  /** df['hour'].mode()[0] */
  function PopularHour(rows: seq<Trip>): (h: int)
    requires rows != []
    ensures IsMode(Hours(rows), h, IntLe) && 0 <= h <= 23
  {
    IntLeTotal();
    ColumnRanges(rows);
    Mode<int>(Hours(rows), IntLe)
  }

  /** The names and the hour label printed for the three modes. */
  function Summary(m: int, d: int, h: int): (s: TimeSummary)
    requires 0 <= d <= 6 && 0 <= h <= 23
    ensures s.month == m && s.weekday == d && s.hour == h
    ensures Labelled(s)
  {
    TimeSummary(m, MonthNameOf(m), d, DayNameOf(d), h, HourRangeOf(h))
  }

  lemma ColumnRanges(rows: seq<Trip>)
    ensures forall v :: v in Months(rows) ==> 1 <= v <= 12
    ensures forall v :: v in Weekdays(rows) ==> 0 <= v <= 6
    ensures forall v :: v in Hours(rows) ==> 0 <= v <= 23
  {
  }
}
