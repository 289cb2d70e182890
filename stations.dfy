/** station_stats: the most popular start station, end station and trip. */
module Stations {
  import opened Wrappers
  import opened Trips
  import opened Freq

  /** The "start_end" value of a row: "<start> to <end>", missing when
      either station is missing (string concatenation propagates NaN). */
  function PairKey(start: Option<string>, end: Option<string>): (k: Option<string>)
    ensures k.Some? <==> start.Some? && end.Some?
    ensures k.Some? ==> k.value == start.value + " to " + end.value
  {
    if start.Some? && end.Some? then Some(start.value + " to " + end.value) else None
  }

  function StartStations(rows: seq<Trip>): seq<Option<string>> { Column(rows, (r: Trip) => r.startStation) }
  function EndStations(rows: seq<Trip>): seq<Option<string>> { Column(rows, (r: Trip) => r.endStation) }
  function StartEnd(rows: seq<Trip>): seq<Option<string>> { Column(rows, (r: Trip) => PairKey(r.startStation, r.endStation)) }

  datatype StationSummary = StationSummary(start: string, end: string, trip: string)

  /** What station_stats reports: Unavailable without both station columns;
      NoData where one of the three mode()[0] calls meets a column with no
      present value and would raise; otherwise the three modes, ties going
      to the smallest name in Python's string order. */
  function StationStatsOf(schema: Schema, rows: seq<Trip>): (r: Stat<StationSummary>)
    ensures r.Unavailable? <==> !(schema.hasStartStation && schema.hasEndStation)
    ensures r.NoData? <==> (
              && schema.hasStartStation && schema.hasEndStation
              && (Present(StartStations(rows)) == [] || Present(EndStations(rows)) == [] || Present(StartEnd(rows)) == []))
    ensures r.Found? ==> IsMode(Present(StartStations(rows)), r.value.start, LexLe)
    ensures r.Found? ==> IsMode(Present(EndStations(rows)), r.value.end, LexLe)
    ensures r.Found? ==> IsMode(Present(StartEnd(rows)), r.value.trip, LexLe)
  {
    if !(schema.hasStartStation && schema.hasEndStation) then Unavailable
    else
      var starts := Present(StartStations(rows));
      var ends := Present(EndStations(rows));
      var trips := Present(StartEnd(rows));
      if starts == [] || ends == [] || trips == [] then NoData
      else
        LexLeTotalOrder();
        Found(StationSummary(Mode(starts, LexLe), Mode(ends, LexLe), Mode(trips, LexLe)))
  }

  /** When both station columns exist and some row has both stations, the
      statistics are found, and the most popular trip is a pair of stations
      that some row travels. */
  lemma PopularTripIsTravelled(schema: Schema, rows: seq<Trip>)
    requires schema.hasStartStation && schema.hasEndStation
    requires exists j :: 0 <= j < |rows| && rows[j].startStation.Some? && rows[j].endStation.Some?
    ensures StationStatsOf(schema, rows).Found?
    ensures exists i :: (
              && 0 <= i < |rows| && rows[i].startStation.Some? && rows[i].endStation.Some?
              && StationStatsOf(schema, rows).value.trip == rows[i].startStation.value + " to " + rows[i].endStation.value)
  {
    StationsPresent(rows);
    var r := StationStatsOf(schema, rows);
    assert r.Found?;
    TravelledKey(rows, r.value.trip);
  }

  lemma StationsPresent(rows: seq<Trip>)
    requires exists j :: 0 <= j < |rows| && rows[j].startStation.Some? && rows[j].endStation.Some?
    ensures Present(StartStations(rows)) != [] && Present(EndStations(rows)) != [] && Present(StartEnd(rows)) != []
  {
    var j :| 0 <= j < |rows| && rows[j].startStation.Some? && rows[j].endStation.Some?;
    assert StartStations(rows)[j] == rows[j].startStation;
    assert EndStations(rows)[j] == rows[j].endStation;
    assert StartEnd(rows)[j] == PairKey(rows[j].startStation, rows[j].endStation);
    assert rows[j].startStation.value in Present(StartStations(rows));
    assert rows[j].endStation.value in Present(EndStations(rows));
  }

  /** A key present in the start_end column is the pair of stations of some row. */
  lemma TravelledKey(rows: seq<Trip>, t: string)
    requires t in Present(StartEnd(rows))
    ensures exists i :: (
              && 0 <= i < |rows| && rows[i].startStation.Some? && rows[i].endStation.Some?
              && t == rows[i].startStation.value + " to " + rows[i].endStation.value)
  {
    var col := StartEnd(rows);
    var i :| 0 <= i < |col| && col[i] == Some(t);
    assert PairKey(rows[i].startStation, rows[i].endStation) == Some(t);
  }
}
