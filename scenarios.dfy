/** Worked cases of the analyser's rules on small concrete columns. */
module Scenarios {
  import opened Freq
  import opened Times
  import opened Durations
  import opened Users

  /** Months [1, 1, 2]: January is the most popular month. */
  lemma PopularMonthOfSmallColumn()
    ensures TotalOrder(IntLe) && Mode<int>([1, 1, 2], IntLe) == 1
  {
    IntLeTotal();
    ModeUnique<int>([1, 1, 2], IntLe, 1);
  }

  /** Hours [23, 23, 1]: the popular hour is 23 and its range ends on 00:00. */
  lemma PopularHourWraps()
    ensures TotalOrder(IntLe) && HourRangeOf(Mode<int>([23, 23, 1], IntLe)) == HourRange(23, 0)
  {
    IntLeTotal();
    ModeUnique<int>([23, 23, 1], IntLe, 23);
  }

  /** A 3820-second total prints as 1 hour 3 minutes 40 seconds, and a
      1273-second mean as 21 minutes 13 seconds. */
  lemma DurationBreakdowns()
    ensures TotalParts(3820) == Parts(0, 0, 1, 3, 40) && TotalTier(3820) == HoursMinsSecs
    ensures MeanParts(1273) == Parts(0, 0, 0, 21, 13) && MeanTier(1273) == MinsSecs
  {
  }

  /** Birth years 1990 and 1995 twice each and 2000 once: both tied
      years are reported, not one of them. */
  lemma BirthYearTie(years: seq<int>)
    requires years == [1990, 1990, 1995, 1995, 2000]
    ensures BirthYearMode(years) == Tied({1990, 1995})
  {
    TieCounts(years);
    forall y ensures y in TopYears(years) <==> y in {1990, 1995} {
      if y == 2000 { assert Count(years, 2000) < Count(years, 1990); }
    }
    assert TopYears(years) == {1990, 1995};
    assert |TopYears(years)| == 2;
  }

  lemma TieCounts(years: seq<int>)
    requires years == [1990, 1990, 1995, 1995, 2000]
    ensures Count(years, 1990) == 2 && Count(years, 1995) == 2 && Count(years, 2000) == 1
    ensures forall z :: z in years ==> z == 1990 || z == 1995 || z == 2000
  {
    assert Count([1990, 1990, 1995, 1995, 2000], 1990) == 2;
    assert Count([1990, 1990, 1995, 1995, 2000], 1995) == 2;
    assert Count([1990, 1990, 1995, 1995, 2000], 2000) == 1;
  }
}
