/** load_data's filter: narrow the trip table to one month and/or one weekday. */
module Filter {
  import opened Trips
  import opened Names

  /** The month selector the prompt hands over: a lower-case month name or "all". */
  predicate ValidMonthSelector(month: string) { month == "all" || month in MonthNames }

  /** months.index(month) + 1. */
  function MonthNumber(month: string): (n: int)
    requires month in MonthNames
    ensures 1 <= n <= 6 && MonthNames[n - 1] == month
  {
    IndexOf(MonthNames, month) + 1
  }

  /** The rows a boolean mask keeps, in table order. */
  function Select(rows: seq<Trip>, keep: Trip -> bool): (kept: seq<Trip>)
    ensures |kept| <= |rows|
    ensures forall x :: x in kept <==> x in rows && keep(x)
  {
    if rows == [] then []
    else
      assert rows == [rows[0]] + rows[1..];
      (if keep(rows[0]) then [rows[0]] else []) + Select(rows[1..], keep)
  }

  /** df['month'] == months.index(month) + 1 */
  function MonthMask(month: string): Trip -> bool
    requires month in MonthNames
  {
    var n := MonthNumber(month);
    (r: Trip) => r.month == n
  }

  /** df['day_of_week'] == day.title() */
  function DayMask(day: string): Trip -> bool
  {
    var name := Title(day);
    (r: Trip) => WeekdayNames[r.weekday] == name
  }

  /** Whether a row survives the (month, day) selection. */
  predicate Matches(r: Trip, month: string, day: string)
    requires ValidMonthSelector(month)
  {
    (month == "all" || MonthMask(month)(r)) && (day == "all" || DayMask(day)(r))
  }

  /** load_data after the CSV is read: the month mask, then the day mask.
      A row is in the result exactly when it is in the table and matches. */
  function LoadData(rows: seq<Trip>, month: string, day: string): (selected: seq<Trip>)
    requires ValidMonthSelector(month)
    ensures |selected| <= |rows|
    ensures forall x :: x in selected <==> x in rows && Matches(x, month, day)
  {
    var byMonth := if month != "all" then Select(rows, MonthMask(month)) else rows;
    if day != "all" then Select(byMonth, DayMask(day)) else byMonth
  }

  // ---- the mask ----

  lemma {:induction false} SelectAppend(a: seq<Trip>, b: seq<Trip>, keep: Trip -> bool)
    ensures Select(a + b, keep) == Select(a, keep) + Select(b, keep)
  {
    if a == [] {
      assert a + b == b;
    } else {
      assert (a + b)[0] == a[0];
      assert (a + b)[1..] == a[1..] + b;
      SelectAppend(a[1..], b, keep);
    }
  }

  lemma {:induction false} SelectKeepsAll(rows: seq<Trip>, keep: Trip -> bool)
    requires forall x :: x in rows ==> keep(x)
    ensures Select(rows, keep) == rows
  {
    if rows != [] {
      SelectKeepsAll(rows[1..], keep);
      assert rows == [rows[0]] + rows[1..];
    }
  }

  // ---- what load_data promises ----

  /** With neither filter the table comes back unchanged. */
  lemma AllAllIsIdentity(rows: seq<Trip>)
    ensures LoadData(rows, "all", "all") == rows
  {
  }

  /** The filter works row by row: on a concatenation it is the
      concatenation of the filtered parts, so table order is kept. */
  lemma LoadDataAppend(a: seq<Trip>, b: seq<Trip>, month: string, day: string)
    requires ValidMonthSelector(month)
    ensures LoadData(a + b, month, day) == LoadData(a, month, day) + LoadData(b, month, day)
  {
    var km := if month != "all" then MonthMask(month) else (r: Trip) => true;
    var kd := DayMask(day);
    if month != "all" { SelectAppend(a, b, km); }
    var ma := if month != "all" then Select(a, km) else a;
    var mb := if month != "all" then Select(b, km) else b;
    if day != "all" { SelectAppend(ma, mb, kd); }
  }

  /** On a single row the filter keeps it exactly when it matches. */
  lemma LoadDataSingle(x: Trip, month: string, day: string)
    requires ValidMonthSelector(month)
    ensures LoadData([x], month, day) == if Matches(x, month, day) then [x] else []
  {
    var km := if month != "all" then MonthMask(month) else (r: Trip) => true;
    var kd := DayMask(day);
    assert [x][1..] == [];
    assert Select([x], km) == if km(x) then [x] else [];
    assert Select([x], kd) == if kd(x) then [x] else [];
    assert Select([], kd) == [];
  }

  /** A table whose every row matches passes the filter unchanged. */
  lemma LoadDataKeepsMatching(rows: seq<Trip>, month: string, day: string)
    requires ValidMonthSelector(month)
    requires forall x :: x in rows ==> Matches(x, month, day)
    ensures LoadData(rows, month, day) == rows
  {
    var km := if month != "all" then MonthMask(month) else (r: Trip) => true;
    var kd := DayMask(day);
    if month != "all" { SelectKeepsAll(rows, km); }
    if day != "all" { SelectKeepsAll(rows, kd); }
  }

  /** Filtering again with the same selection changes nothing. */
  lemma LoadDataIdempotent(rows: seq<Trip>, month: string, day: string)
    requires ValidMonthSelector(month)
    ensures LoadData(LoadData(rows, month, day), month, day) == LoadData(rows, month, day)
  {
    LoadDataKeepsMatching(LoadData(rows, month, day), month, day);
  }

  lemma MonthNumberOfName(m: nat)
    requires m < |MonthNames|
    ensures MonthNumber(MonthNames[m]) == m + 1
  {
    MonthNameIndex(m + 1);
  }

  /** For a month name the mask keeps exactly that calendar month (January = 1),
      and for a day name exactly that weekday (Monday = 0). */
  lemma MatchesSelected(r: Trip, m: nat, d: nat)
    requires m < |MonthNames| && d < |DayNames|
    ensures Matches(r, MonthNames[m], DayNames[d]) <==> r.month == m + 1 && r.weekday == d
    ensures Matches(r, MonthNames[m], "all") <==> r.month == m + 1
    ensures Matches(r, "all", DayNames[d]) <==> r.weekday == d
  {
    MonthNumberOfName(m);
    DayMaskSelects(r, d);
  }

  lemma DayMaskSelects(r: Trip, d: nat)
    requires d < |DayNames|
    ensures DayMask(DayNames[d])(r) <==> r.weekday == d
  {
    DayNameTitle(d);
    WeekdayNamesDistinct(r.weekday, d);
  }

  lemma WeekdayNamesDistinct(i: nat, j: nat)
    requires i < 7 && j < 7
    ensures WeekdayNames[i] == WeekdayNames[j] <==> i == j
  {
    var initials := "MTWTFSS";
    var seconds := "ouehrau";
    assert forall k :: 0 <= k < 7 ==> WeekdayNames[k][0] == initials[k] && WeekdayNames[k][1] == seconds[k];
  }
}
