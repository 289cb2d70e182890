# Bike-share analyser: filtering and statistics

A Dafny model of the analysis core of `bikeshare.py`. The program loads the trip
log of one city and narrows it to a month and/or a weekday. It then reports four
groups of statistics. The time statistics are the most popular month, weekday and
starting hour. The station statistics are the most popular start station, end
station and trip. The duration statistics are the total and mean trip duration,
broken into years, days, hours, minutes and seconds. The user statistics are the
counts of user types and genders, and the birth-year extremes and most common
year(s).

Modules, one per part of the program:

- `Wrappers`: `Option`, and `Stat` (the outcomes `Unavailable`, `NoData` and `Found`).
- `Trips`: the trip record. `month`, `weekday` (0 = Monday) and `hour` are taken
  as already derived from the start time. The optional columns are `Option` fields.
  A `Schema` says which optional columns the dataset has.
- `Names`: the month and day name lists, Python's `str.title()` on ASCII text,
  `list.index`, and the two name-lookup loops of `time_stats`.
- `Filter`: `load_data`'s month and day masks.
- `Freq`: counting, pandas' `mode()[0]` (the least value of highest frequency),
  `value_counts()`, `dropna()`, and Python's string order.
- `Times`, `Stations`, `Durations`, `Users`: one statistic each, as functions
  of the filtered rows.
- `Frames`: the DataFrame as a class. `load_data` builds it. `time_stats` and
  `station_stats` write columns into it in place. `main` runs the four
  statistics and pages through the rows five at a time.
- `Scenarios`: the rules above on small concrete columns (a popular month, the
  23-hour wrap, two duration breakdowns, a birth-year tie).

Every statistic returns a structured value, never text. Where the program would
raise on an empty selection (`mode()[0]` of an empty column), the model reports
`NoData`. A missing column gives `Unavailable`. The program itself stops at the
first such error: on an empty selection the `KeyError` of `mode()[0]` at
bikeshare.py:119 ends `main`, so it computes no station, duration or user
statistics and shows no pages. The model reports `NoData` for the time
statistics and carries on with the others.

Durations are whole seconds. Dafny's `/` and `%` on non-negative integers agree
with Python's `//` and `%`. The mean is the sum of the present durations divided
by their number, rounded down.

Station names are ranked in Python's string order, code point by code point. That
is the order in which pandas sorts the modes it returns.

## Model

| member | source | states |
|---|---|---|
| `Names.IndexOf` | bikeshare.py:89-90 | `months.index(month)`: the position holds the name and no earlier position does |
| `Names.TitleShape` | bikeshare.py:98 | `day.title()` keeps the length and, position by position, the same letter up to case; a letter that starts a word comes out upper-case and a letter that follows a letter comes out lower-case |
| `Names.DayNameTitle` | bikeshare.py:84-98 | a selector day name, title-cased, equals the calendar's weekday name that `weekday_name` produces |
| `Names.MonthNameOf` | bikeshare.py:121-124 | the name found for the popular month is a list entry, and `'june'` when no position matches |
| `Names.MonthNameIndex` | bikeshare.py:121-124 | for m in 1..6 the name found sits at position m−1, so `list.index` of it gives m back |
| `Names.DayNameOf` | bikeshare.py:131-134 | the name found for the popular weekday is a list entry, and `'sunday'` when no position matches |
| `Names.DayNameIndex` | bikeshare.py:131-134 | for d in 0..6 the name found sits at position d |
| `Names.LookupMonthName` | bikeshare.py:121-124 | the loop stops on `monthnames[m-1]` for a month m in 1..6; for any other m it runs out and leaves `'june'` |
| `Names.LookupDayName` | bikeshare.py:131-134 | the loop stops on `daynames[d]` for d in 0..6; otherwise it leaves `'sunday'` |
| `Filter.MonthNumber` | bikeshare.py:89-90 | a month name maps to a number in 1..6 whose list entry is that name |
| `Filter.AllAllIsIdentity` | bikeshare.py:86-100 | with month and day both `all`, the table comes back unchanged |
| `Filter.Select` | bikeshare.py:92-98 | `df[mask]`: no more rows than the table, and a row is kept exactly when it is in the table and the mask holds for it |
| `Filter.LoadData` | bikeshare.py:86-98 | no more rows than the table, and a row is in the result exactly when it is in the table and passes both masks |
| `Filter.DayMaskSelects` | bikeshare.py:96-98 | the mask for selector day name d keeps exactly the trips on weekday d |
| `Filter.LoadDataAppend` | bikeshare.py:86-98 | the filter of a concatenation is the concatenation of the filters, so table order is preserved |
| `Filter.LoadDataSingle` | bikeshare.py:86-98 | a single row is kept exactly when it matches the selection |
| `Filter.LoadDataKeepsMatching` | bikeshare.py:86-98 | a table whose every row matches is returned unchanged |
| `Filter.LoadDataIdempotent` | bikeshare.py:86-98 | filtering again with the same month and day changes nothing |
| `Filter.MatchesSelected` | bikeshare.py:87-98 | month name i keeps exactly month i+1; day name k keeps exactly weekday k (Monday = 0); both together keep their conjunction |
| `Freq.Mode` | bikeshare.py:119 | `mode()[0]` of a non-empty column occurs in it, has the highest count, and is the least value (under the given order) among values of that count |
| `Freq.ModeUnique` | bikeshare.py:119 | exactly one value has those three properties, so the reported mode is determined |
| `Freq.LexLeTotalOrder` | bikeshare.py:166 | Python's string order is reflexive, antisymmetric, transitive and total, so station modes are well defined |
| `Freq.Tally` | bikeshare.py:256 | `value_counts()`: one entry per distinct value; each value's count is its number of occurrences; the counts add up to the column length |
| `Freq.TallyEntries` | bikeshare.py:256 | every entry's value occurs in the column, and its count is that value's positive number of occurrences |
| `Freq.Present` | bikeshare.py:288 | `dropna()`: at most as many values as rows, and a value is present exactly when some row holds it |
| `Freq.PresentAndMissing` | bikeshare.py:260 | rows minus non-null values is the number of missing values |
| `Freq.PresentCount` | bikeshare.py:256 | after dropping missing values, each value is counted once per row that holds it |
| `Freq.MaxCount` | bikeshare.py:306 | `yob_common.max()`: no count exceeds it, and a non-empty tally reaches it |
| `Freq.WithCountFacts` | bikeshare.py:307-311 | the entries with a given count have distinct keys, and their keys are exactly the values recorded with that count |
| `Freq.KeysCard` | bikeshare.py:307 | a tally with distinct keys has as many keys as entries, so `counter` counts years |
| `Times.HourRangeOf` | bikeshare.py:145-148 | for an hour of the day the label runs from h to (h+1) mod 24, so only 23 ends on `00:00` |
| `Times.PopularMonth` | bikeshare.py:119 | the smallest most frequent month of a non-empty table, in 1..12 |
| `Times.PopularWeekday` | bikeshare.py:128-130 | the smallest most frequent weekday ordinal, in 0..6 |
| `Times.PopularHour` | bikeshare.py:138-141 | the smallest most frequent starting hour, in 0..23 |
| `Times.Summary` | bikeshare.py:121-148 | the names the two lookups stop on (falling through to the last entry) and the hour's range label |
| `Times.TimeStatsOf` | bikeshare.py:102-150 | NoData exactly on an empty table; otherwise month, weekday and hour are each the smallest most-frequent value; the names are the list entries (with the `june` fall-through); the hour range wraps at 23 |
| `Stations.PairKey` | bikeshare.py:174 | a trip key exists exactly when both stations are present, and it reads `<start> to <end>` |
| `Stations.StationStatsOf` | bikeshare.py:152-181 | Unavailable exactly without both station columns; NoData exactly when one of the three columns has no present value; otherwise each is the smallest most-frequent name |
| `Stations.PopularTripIsTravelled` | bikeshare.py:152-181 | with both station columns and some row that has both stations, the statistics are found, and the most popular trip is `<start> to <end>` of some row that has both stations |
| `Stations.TravelledKey` | bikeshare.py:174 | every key present in `start_end` is `<start> to <end>` of some row that has both stations |
| `Durations.TotalParts` | bikeshare.py:197-202 | years·31557600 + days·86400 + hours·3600 + mins·60 + secs = total, with days ≤ 365, hours < 24, mins < 60, secs < 60; each shorter suffix rebuilds the matching remainder |
| `Durations.SecondsOfRemainder` | bikeshare.py:201-202 | `ttt % 60` equals the seconds left after years, days and hours, because each of those units is a whole number of minutes |
| `Durations.TotalTier` | bikeshare.py:203-212 | the total is printed as seconds iff ≤ 60, min+sec iff in (60, 3600], h+m+s iff in (3600, 86400], d+h+m+s iff in (86400, 34557600], and with years otherwise |
| `Durations.TotalShownExact` | bikeshare.py:198-212 | the printed components rebuild the total exactly unless it is 60, 3600, 86400 or in [31557600, 34557600] |
| `Durations.TotalShownLossy` | bikeshare.py:203-212 | at 60, 3600, 86400 and 31557600 seconds the printed components add up to 0 |
| `Durations.CorrectedTotalShownExact` | bikeshare.py:203-212 | with strict thresholds and the year tier starting at 31557600, the printed components always rebuild the total |
| `Durations.MeanParts` | bikeshare.py:215-219 | days·86400 + hours·3600 + mins·60 + secs = mean, with hours < 24, mins < 60, secs < 60 and no year part |
| `Durations.MeanTier` | bikeshare.py:221-228 | the mean uses the same tiers up to 86400 and days above that, never years |
| `Durations.MeanShownExact` | bikeshare.py:216-228 | the printed mean components rebuild the mean exactly unless it is 60, 3600 or 86400 |
| `Durations.CorrectedMeanShownExact` | bikeshare.py:221-228 | with strict thresholds the printed mean components always rebuild the mean |
| `Durations.MeanDuration` | bikeshare.py:215 | none for an empty column; otherwise m with m·n ≤ sum < (m+1)·n (the mean rounded down) |
| `Durations.DurationStatsOf` | bikeshare.py:183-233 | Unavailable exactly without the duration column; the total is the sum of the present durations, split into its bounded parts and printed in the tier `TotalTier` gives it; the mean is missing exactly when no duration is present, and otherwise is the rounded-down mean, split into its parts and printed in the tier `MeanTier` gives it |
| `Users.CategoryStats` | bikeshare.py:255-276 | missing = rows − non-null = number of missing rows; one distinct entry per present category, counting its rows; counts + missing = rows |
| `Users.MinOf` | bikeshare.py:292 | the earliest year occurs among the years and is ≤ all of them |
| `Users.MaxOf` | bikeshare.py:299 | the latest year occurs among the years and is ≥ all of them |
| `Users.TopEntriesAreTopYears` | bikeshare.py:305-311 | the `value_counts()` entries that reach the maximum count are exactly the years of highest frequency, one entry per year |
| `Users.BirthYearMode` | bikeshare.py:305-314 | a single year iff exactly one year has the highest frequency (then it is that year); otherwise exactly the set of years sharing it (empty when no year is present) |
| `Users.BirthYearStats` | bikeshare.py:282-314 | missing count as for the categories; earliest/latest are min/max over present years only, or none if no year is present; the old note iff earliest ≤ 1920 and the young note iff latest ≥ 2015, each with age 2017 − year; the mode as above |
| `Users.UserStatsOf` | bikeshare.py:235-319 | each part is Unavailable exactly when its column is absent, and none reports NoData; otherwise the user-type and gender parts are the category counts of their columns and the birth-year part is the birth-year statistics above, tie-aware mode included |
| `Scenarios.PopularMonthOfSmallColumn` | bikeshare.py:119 | on months [1, 1, 2] the most popular month is 1 |
| `Scenarios.PopularHourWraps` | bikeshare.py:141-146 | on hours [23, 23, 1] the popular hour is 23 and its label runs to `00:00` |
| `Scenarios.DurationBreakdowns` | bikeshare.py:197-224 | a 3820-second total prints as 1 hour 3 minutes 40 seconds; a 1273-second mean prints as 21 minutes 13 seconds |
| `Scenarios.BirthYearTie` | bikeshare.py:305-314 | birth years with 1990 and 1995 twice each and 2000 once report the tie {1990, 1995} |
| `Frames.Frame.Load` | bikeshare.py:64-100 | the frame holds the filtered rows and the schema; `day_of_week` holds weekday names; there are no `hour` or `start_end` columns yet |
| `Frames.Frame.TimeStats` | bikeshare.py:102-150 | returns the time statistics of its rows; on a non-empty frame it overwrites `day_of_week` with ordinals and adds `hour`; on an empty one it changes nothing |
| `Frames.Frame.StationStats` | bikeshare.py:152-181 | returns the station statistics; adds `start_end` exactly when the start and end modes did not raise; other columns unchanged |
| `Frames.Analyse` | bikeshare.py:330-336 | one pass of `main`: the frame holds the filtered rows, and the report holds the four statistics of those rows (on an empty selection the program stops after the time statistics; the model goes on) |
| `Frames.Page` | bikeshare.py:340 | a page has at most five rows |
| `Frames.Paginate` | bikeshare.py:338-342 | after r requests, the pages shown are pages 0..r−1 in order, each `df[5k:5k+5]` |
| `Frames.PagesCover` | bikeshare.py:338-342 | the first n pages, read in order, are the first min(5n, rows) rows: nothing is skipped or shown twice |

## Findings

| source | as written | input that shows it | evidently intended | confidence | as-written member | corrected member |
|---|---|---|---|---|---|---|
| bikeshare.py:203-212 | tiers chosen with `ttt <= 60`, `<= 3600`, `<= 86400`, `<= 34557600` | a total of 3600 s prints "0 min(s) 0 sec(s)"; a total of 31557600 s (one 365.25-day year) prints 0 days, hours, minutes and seconds | strict `<` at each bound and the year tier from 31557600 (34557600 looks like a mistyped 31557600), so the printed parts always rebuild the total | medium; not executed | `Durations.TotalShownLossy` | `Durations.CorrectedTotalShownExact` |
| bikeshare.py:221-228 | tiers chosen with `mtt <= 60`, `<= 3600`, `<= 86400` | a mean of exactly 60 s prints as 0 seconds | strict `<` at each bound | medium; not executed | `Durations.MeanShownExact` | `Durations.CorrectedMeanShownExact` |

`Durations.DurationStatsOf` keeps the tiers as written, because those are what
the program prints. The corrected tiers `CorrectedTotalTier` and
`CorrectedMeanTier` sit beside them, and the lossless round trip is proved about
them.

## Left out

- `get_filters` (bikeshare.py:11-62) is console input. The model takes an already
  validated month selector (a lower-case month name or `all`) and a day string.
- Reading the CSV and `to_datetime` (bikeshare.py:77-84, 114) are file I/O and
  date parsing. Each trip carries its month, weekday and hour as given fields.
- Printing, `time.time()`, the restart question and `os.system('cls||clear')`
  (bikeshare.py:111-112, 149-150, 180, 232, 318, 343-348) are I/O. No output text
  is modelled, including the missing space in `'day(s) '` (bikeshare.py:210) and
  the `.title()` applied when names are printed (bikeshare.py:125, 135).
- Durations.MeanDuration: weaker than the source, because it rounds the mean
  down to whole seconds where pandas keeps a float. This also moves the tier
  at the bounds: a float mean in (60, 61), (3600, 3601) or (86400, 86401) is
  printed in the next tier up by bikeshare.py:221-228 (60.5 s prints as
  "1 min(s) 0.5 sec(s)"), while `MeanTier` of the rounded-down mean picks the
  lower tier.
- Frames.Paginate: pages the filtered rows only. The `day_of_week`, `hour` and
  `start_end` columns the frame gains are part of what `print(df[i:(i+5)])`
  shows (bikeshare.py:340), which is output and not modelled.
- Durations.TotalParts: durations are whole seconds, so `.round(2)` of the
  seconds part (bikeshare.py:202, 219) and fractional durations are not modelled.
- Names.TitleShape: `str.title()` is modelled for ASCII letters only. No
  Unicode case mapping is modelled.
- Durations.DurationStatsOf: with no duration present the program prints the
  total and then raises `ValueError` at `int(mtt//86400)` (bikeshare.py:216),
  because the mean is NaN. The model reports the total and no mean instead.
- Stations.StationStatsOf: when a later station column has no present value,
  the program prints the earlier modes and then raises. The model reports NoData
  for the whole statistic.
- The order of `value_counts()` entries, and of the tied years in the printed list
  (bikeshare.py:256, 270, 311-314), is left open by pandas. Counts are modelled
  as a list of distinct entries, and tied years as a set.
- `time_stats` rewrites the `month` column with the values it already holds
  (bikeshare.py:117), so the frame has no field for it.
- Birth years are integers. The float-to-int `astype(int)` (bikeshare.py:290) is
  not modelled.
