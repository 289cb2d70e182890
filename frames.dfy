/** The DataFrame as main() drives it: load_data builds it, time_stats and
    station_stats add and overwrite columns of it in place, and the raw rows
    are shown five at a time. */
module Frames {
  import opened Wrappers
  import opened Trips
  import opened Names
  import opened Filter
  import opened Freq
  import opened Times
  import opened Stations
  import opened Durations
  import opened Users

  /** The 'day_of_week' column: weekday names as load_data writes it, ordinals
      once time_stats has overwritten it. */
  datatype DayColumn = DayNameValues(names: seq<string>) | DayOrdinals(ordinals: seq<int>)

  function WeekdayNameColumn(rows: seq<Trip>): seq<string> { Column(rows, (r: Trip) => WeekdayNames[r.weekday]) }

  /** The frame main() works on. The columns time_stats and station_stats
      add or overwrite change only what is printed later (the raw-data pages
      show them); no statistic reads them back, and the pages are modelled
      on the rows alone. */
  class Frame {
    const schema: Schema
    /** The filtered rows; the statistics never drop or reorder them. */
    const rows: seq<Trip>
    var dayOfWeek: DayColumn
    /** The 'hour' column, once time_stats has added it. */
    var hour: Option<seq<int>>
    /** The 'start_end' column, once station_stats has added it. */
    var startEnd: Option<seq<Option<string>>>

    /** load_data: derive the calendar columns, then apply the month and
        day masks. */
    constructor Load(table: Table, month: string, day: string)
      requires ValidMonthSelector(month)
      ensures schema == table.schema && rows == LoadData(table.rows, month, day)
      ensures dayOfWeek == DayNameValues(WeekdayNameColumn(rows))
      ensures hour == None && startEnd == None
    {
      schema := table.schema;
      rows := LoadData(table.rows, month, day);
      dayOfWeek := DayNameValues(WeekdayNameColumn(LoadData(table.rows, month, day)));
      hour := None;
      startEnd := None;
    }

    /** time_stats on this frame. On an empty frame the first mode()[0]
        raises before any column is written, which is reported as NoData. */
    method TimeStats() returns (r: Stat<TimeSummary>)
      modifies this
      ensures r == TimeStatsOf(rows)
      ensures rows != [] ==> dayOfWeek == DayOrdinals(Weekdays(rows)) && hour == Some(Hours(rows))
      ensures rows == [] ==> dayOfWeek == old(dayOfWeek) && hour == old(hour)
      ensures startEnd == old(startEnd)
    {
      if rows == [] {
        return NoData;
      }
      IntLeTotal();
      ColumnRanges(rows);
      var popularMonth := Mode<int>(Months(rows), IntLe);
      var monthName := LookupMonthName(popularMonth);
      dayOfWeek := DayOrdinals(Weekdays(rows));
      var popularDay := Mode<int>(Weekdays(rows), IntLe);
      var dayName := LookupDayName(popularDay);
      hour := Some(Hours(rows));
      var popularHour := Mode<int>(Hours(rows), IntLe);
      r := Found(TimeSummary(popularMonth, monthName, popularDay, dayName, popularHour, HourRangeOf(popularHour)));
    }

    /** station_stats on this frame. The 'start_end' column is written after
        the start and end modes, so only when neither of them raised. */
    method StationStats() returns (r: Stat<StationSummary>)
      modifies this
      ensures r == StationStatsOf(schema, rows)
      ensures startEnd == (if schema.hasStartStation && schema.hasEndStation
                              && Present(StartStations(rows)) != [] && Present(EndStations(rows)) != []
                           then Some(StartEnd(rows)) else old(startEnd))
      ensures dayOfWeek == old(dayOfWeek) && hour == old(hour)
    {
      if !(schema.hasStartStation && schema.hasEndStation) {
        return Unavailable;
      }
      var starts := Present(StartStations(rows));
      if starts == [] {
        return NoData;
      }
      LexLeTotalOrder();
      var popularStart := Mode(starts, LexLe);
      var ends := Present(EndStations(rows));
      if ends == [] {
        return NoData;
      }
      var popularEnd := Mode(ends, LexLe);
      startEnd := Some(StartEnd(rows));
      var trips := Present(StartEnd(rows));
      if trips == [] {
        return NoData;
      }
      var popularTrip := Mode(trips, LexLe);
      r := Found(StationSummary(popularStart, popularEnd, popularTrip));
    }
  }

  datatype Report = Report(
    times: Stat<TimeSummary>,
    stations: Stat<StationSummary>,
    durations: Stat<DurationSummary>,
    users: UserSummary)

  /** One pass of main() between the prompt and the raw-data question: load,
      then the four statistics in order on the same frame. */
  method Analyse(table: Table, month: string, day: string) returns (report: Report, frame: Frame)
    requires ValidMonthSelector(month)
    ensures frame.rows == LoadData(table.rows, month, day) && frame.schema == table.schema
    ensures report.times == TimeStatsOf(frame.rows)
    ensures report.stations == StationStatsOf(table.schema, frame.rows)
    ensures report.durations == DurationStatsOf(table.schema, frame.rows)
    ensures report.users == UserStatsOf(table.schema, frame.rows)
  {
    frame := new Frame.Load(table, month, day);
    var times := frame.TimeStats();
    var stations := frame.StationStats();
    report := Report(times, stations, DurationStatsOf(frame.schema, frame.rows), UserStatsOf(frame.schema, frame.rows));
  }

  // ---- showing the raw rows ----

  /** The rows of page k, df[5k : 5k + 5]: Python slicing clips both bounds
      to the length, so a page past the end is empty. */
  function Page<T>(rows: seq<T>, k: nat): (p: seq<T>)
    ensures |p| <= 5
  {
    var lo := if 5 * k <= |rows| then 5 * k else |rows|;
    var hi := if 5 * k + 5 <= |rows| then 5 * k + 5 else |rows|;
    rows[lo..hi]
  }

  /** main's loop: each 'y' shows the next five rows. */
  method Paginate<T>(rows: seq<T>, requests: nat) returns (pages: seq<seq<T>>)
    ensures |pages| == requests
    ensures forall k :: 0 <= k < requests ==> pages[k] == Page(rows, k)
  {
    var i := 0;
    pages := [];
    while |pages| < requests
      invariant |pages| <= requests && i == 5 * |pages|
      invariant forall k :: 0 <= k < |pages| ==> pages[k] == Page(rows, k)
    {
      var lo := if i <= |rows| then i else |rows|;
      var hi := if i + 5 <= |rows| then i + 5 else |rows|;
      pages := pages + [rows[lo..hi]];
      i := i + 5;
    }
  }

  function Concat<T>(pages: seq<seq<T>>): seq<T>
  {
    if pages == [] then [] else Concat(pages[..|pages| - 1]) + pages[|pages| - 1]
  }

  /** The first n pages, read in order, are the first 5n rows of the table
      (all of it once 5n reaches its length): nothing is skipped or shown twice. */
  lemma {:induction false} PagesCover<T>(rows: seq<T>, n: nat)
    ensures Concat(seq(n, k requires 0 <= k => Page(rows, k))) == rows[..if 5 * n <= |rows| then 5 * n else |rows|]
  {
    var ps := seq(n, k requires 0 <= k => Page(rows, k));
    if n > 0 {
      PagesCover(rows, n - 1);
      assert ps[..n - 1] == seq(n - 1, k requires 0 <= k => Page(rows, k));
    }
  }
}
