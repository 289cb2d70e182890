/** user_stats: counts of user types and genders, and the birth-year
    extremes and most common birth year(s). */
module Users {
  import opened Wrappers
  import opened Trips
  import opened Freq

  /** The "current" year the age notes are computed against. */
  const ReferenceYear: int := 2017
  /** Birth years at or before this get the "pretty old" note. */
  const OldYear: int := 1920
  /** Birth years at or after this get the "pretty young" note. */
  const YoungYear: int := 2015

  // ---- user type and gender ----

  datatype Categories = Categories(counts: Entries<string>, missing: nat)

  /** value_counts() of a categorical column and its number of missing values
      (length minus non-null count). */
  function CategoryStats(col: seq<Option<string>>): (c: Categories)
    ensures c.missing == |col| - |Present(col)| == Count(col, None)
    ensures DistinctKeys(c.counts)
    ensures forall v :: v in Keys(c.counts) <==> Some(v) in col
    ensures forall v :: Lookup(c.counts, v) == Count(col, Some(v))
    ensures SumCounts(c.counts) + c.missing == |col|
  {
    var vals := Present(col);
    PresentAndMissing(col);
    forall v ensures Count(vals, v) == Count(col, Some(v)) { PresentCount(col, v); }
    Categories(Tally(vals), |col| - |vals|)
  }

  // ---- birth year ----

  function MinOf(s: seq<int>): (m: int)
    requires s != []
    ensures m in s && forall x :: x in s ==> m <= x
  {
    if |s| == 1 then s[0]
    else
      var rest := MinOf(s[1..]);
      assert forall x :: x in s ==> x == s[0] || x in s[1..];
      if s[0] <= rest then s[0] else rest
  }

  function MaxOf(s: seq<int>): (m: int)
    requires s != []
    ensures m in s && forall x :: x in s ==> x <= m
  {
    if |s| == 1 then s[0]
    else
      var rest := MaxOf(s[1..]);
      assert forall x :: x in s ==> x == s[0] || x in s[1..];
      if s[0] >= rest then s[0] else rest
  }

  /** The years of highest frequency: the reference definition. */
  ghost function TopYears(years: seq<int>): set<int>
  {
    set y | y in years && forall z :: z in years ==> Count(years, z) <= Count(years, y)
  }

  /** The most common birth year if one year alone has the highest count,
      otherwise the list of all years that share it (as a set: pandas leaves
      the order of equal counts open). */
  datatype YearMode = Single(year: int) | Tied(years: set<int>)

  /** The tied years are the entries of value_counts() whose count is its
      maximum; there are as many entries as distinct years. */
  lemma TopEntriesAreTopYears(years: seq<int>)
    ensures var e := Tally(years);
            var top := WithCount(e, MaxCount(e));
            Keys(top) == TopYears(years) && |top| == |TopYears(years)|
  {
    var e := Tally(years);
    var mx := MaxCount(e);
    var top := WithCount(e, mx);
    WithCountFacts(e, mx);
    KeysCard(top);
    TallyEntries(years);
    CountsPositive(years);
    forall z | z in years ensures Count(years, z) <= mx {
      var i := KeyIndex(e, z);
      LookupAt(e, i);
    }
    forall y | y in TopYears(years) ensures y in Keys(top) {
      var i :| 0 <= i < |e| && e[i].1 == mx;
      assert Count(years, e[i].0) <= Count(years, y);
    }
  }

  /** user_stats' most common birth year(s): value_counts(), its maximum, and
      the number of entries reaching it decide between one year and a list. */
  function BirthYearMode(years: seq<int>): (r: YearMode)
    ensures r.Single? <==> |TopYears(years)| == 1
    ensures r.Single? ==> TopYears(years) == {r.year}
    ensures r.Tied? ==> r.years == TopYears(years)
  {
    var e := Tally(years);
    var top := WithCount(e, MaxCount(e));
    TopEntriesAreTopYears(years);
    if |top| == 1 then
      assert Keys(top) == {top[0].0};
      Single(top[0].0)
    else Tied(Keys(top))
  }

  datatype BirthYearSummary = BirthYearSummary(
    missing: nat,
    earliest: Option<int>, oldAge: Option<int>,
    latest: Option<int>, youngAge: Option<int>,
    mode: YearMode)

  /** The birth-year part of user_stats: the missing count, then over the
      present years only the earliest and latest year (None where min() and
      max() of nothing give NaN), the age notes, and the mode. */
  function BirthYearStats(col: seq<Option<int>>): (b: BirthYearSummary)
    ensures b.missing == |col| - |Present(col)| == Count(col, None)
    ensures b.earliest.None? <==> Present(col) == []
    ensures b.earliest.Some? ==> Some(b.earliest.value) in col
    ensures b.earliest.Some? ==> forall y :: Some(y) in col ==> b.earliest.value <= y
    ensures b.latest.None? <==> Present(col) == []
    ensures b.latest.Some? ==> Some(b.latest.value) in col
    ensures b.latest.Some? ==> forall y :: Some(y) in col ==> y <= b.latest.value
    ensures b.oldAge.Some? <==> b.earliest.Some? && b.earliest.value <= OldYear
    ensures b.oldAge.Some? ==> b.oldAge.value == ReferenceYear - b.earliest.value
    ensures b.youngAge.Some? <==> b.latest.Some? && b.latest.value >= YoungYear
    ensures b.youngAge.Some? ==> b.youngAge.value == ReferenceYear - b.latest.value
    ensures b.mode.Single? <==> |TopYears(Present(col))| == 1
    ensures b.mode.Single? ==> TopYears(Present(col)) == {b.mode.year}
    ensures b.mode.Tied? ==> b.mode.years == TopYears(Present(col))
  {
    var years := Present(col);
    PresentAndMissing(col);
    var earliest := if years == [] then None else Some(MinOf(years));
    var latest := if years == [] then None else Some(MaxOf(years));
    var oldAge := if earliest.Some? && earliest.value <= OldYear then Some(ReferenceYear - earliest.value) else None;
    var youngAge := if latest.Some? && latest.value >= YoungYear then Some(ReferenceYear - latest.value) else None;
    BirthYearSummary(|col| - |years|, earliest, oldAge, latest, youngAge, BirthYearMode(years))
  }

  datatype UserSummary = UserSummary(
    userTypes: Stat<Categories>,
    genders: Stat<Categories>,
    birthYears: Stat<BirthYearSummary>)

  function UserTypeColumn(rows: seq<Trip>): seq<Option<string>> { Column(rows, (r: Trip) => r.userType) }
  function GenderColumn(rows: seq<Trip>): seq<Option<string>> { Column(rows, (r: Trip) => r.gender) }
  function BirthYearColumn(rows: seq<Trip>): seq<Option<int>> { Column(rows, (r: Trip) => r.birthYear) }

  /** What user_stats reports: each of the three parts is Unavailable when
      its column is absent from the schema, and otherwise the statistics of
      that column; none of them fails on an empty table. */
  function UserStatsOf(schema: Schema, rows: seq<Trip>): (u: UserSummary)
    ensures u.userTypes.Unavailable? <==> !schema.hasUserType
    ensures u.genders.Unavailable? <==> !schema.hasGender
    ensures u.birthYears.Unavailable? <==> !schema.hasBirthYear
    ensures !u.userTypes.NoData? && !u.genders.NoData? && !u.birthYears.NoData?
    ensures u.userTypes.Found? ==> u.userTypes.value.missing + SumCounts(u.userTypes.value.counts) == |rows|
    ensures u.genders.Found? ==> u.genders.value.missing + SumCounts(u.genders.value.counts) == |rows|
    ensures u.birthYears.Found? ==> u.birthYears.value.missing == Count(BirthYearColumn(rows), None)
    ensures u.userTypes.Found? ==> u.userTypes.value == CategoryStats(UserTypeColumn(rows))
    ensures u.genders.Found? ==> u.genders.value == CategoryStats(GenderColumn(rows))
    ensures u.birthYears.Found? ==> u.birthYears.value == BirthYearStats(BirthYearColumn(rows))
  {
    UserSummary(
      if schema.hasUserType then Found(CategoryStats(UserTypeColumn(rows))) else Unavailable,
      if schema.hasGender then Found(CategoryStats(GenderColumn(rows))) else Unavailable,
      if schema.hasBirthYear then Found(BirthYearStats(BirthYearColumn(rows))) else Unavailable)
  }
}
