/** The trip record and the table the analyser works on. The calendar fields
    month, weekday and hour are taken as already derived from the start time. */
module Trips {
  import opened Wrappers

  /** Calendar month of the start time, 1 = January. */
  type Month = m: int | 1 <= m <= 12 witness 1
  /** Day of the week of the start time, 0 = Monday .. 6 = Sunday. */
  type Weekday = d: int | 0 <= d <= 6 witness 0
  /** Hour of the day of the start time. */
  type Hour = h: int | 0 <= h <= 23 witness 0

  /** One rental. Optional columns may hold a missing value (None) per row. */
  datatype Trip = Trip(
    month: Month,
    weekday: Weekday,
    hour: Hour,
    startStation: Option<string>,
    endStation: Option<string>,
    duration: Option<nat>,      // whole seconds
    userType: Option<string>,
    gender: Option<string>,
    birthYear: Option<int>)

  /** Which optional columns the dataset has; a dataset-wide property. */
  datatype Schema = Schema(
    hasStartStation: bool,
    hasEndStation: bool,
    hasDuration: bool,
    hasUserType: bool,
    hasGender: bool,
    hasBirthYear: bool)

  datatype Table = Table(schema: Schema, rows: seq<Trip>)

  /** The values of one column, row by row. */
  function Column<U>(rows: seq<Trip>, f: Trip -> U): (c: seq<U>)
    ensures |c| == |rows|
    ensures forall i :: 0 <= i < |rows| ==> c[i] == f(rows[i])
  {
    seq(|rows|, i requires 0 <= i < |rows| => f(rows[i]))
  }

  function Months(rows: seq<Trip>): seq<int> { Column(rows, (r: Trip) => r.month as int) }
  function Weekdays(rows: seq<Trip>): seq<int> { Column(rows, (r: Trip) => r.weekday as int) }
  function Hours(rows: seq<Trip>): seq<int> { Column(rows, (r: Trip) => r.hour as int) }
}
