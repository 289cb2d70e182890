/** trip_duration_stats: total and mean trip duration broken down into
    years, days, hours, minutes and seconds, printed in a tier chosen by size. */
module Durations {
  import opened Wrappers
  import opened Trips
  import opened Freq

  const YearSeconds: nat := 31557600   // a 365.25-day year
  const DaySeconds: nat := 86400
  const HourSeconds: nat := 3600
  const MinuteSeconds: nat := 60
  /** The bound above which the total is printed with years, as written. */
  const YearTierBound: nat := 34557600

  datatype Parts = Parts(years: nat, days: nat, hours: nat, mins: nat, secs: nat)

  /** Which components the printed text shows. */
  datatype Tier = Secs | MinsSecs | HoursMinsSecs | DaysHoursMinsSecs | YearsDaysHoursMinsSecs

  /** The seconds the printed components of a tier stand for. */
  function Shown(p: Parts, t: Tier): nat
  {
    match t
    case Secs => p.secs
    case MinsSecs => p.mins * MinuteSeconds + p.secs
    case HoursMinsSecs => p.hours * HourSeconds + p.mins * MinuteSeconds + p.secs
    case DaysHoursMinsSecs => p.days * DaySeconds + p.hours * HourSeconds + p.mins * MinuteSeconds + p.secs
    case YearsDaysHoursMinsSecs =>
      p.years * YearSeconds + p.days * DaySeconds + p.hours * HourSeconds + p.mins * MinuteSeconds + p.secs
  }

  // ---- the total ----

  /** The components of the total: years, then the days, hours, minutes of
      what remains, and the seconds taken modulo 60 of the total. */
  function TotalParts(ttt: nat): (p: Parts)
    ensures p.years * YearSeconds + p.days * DaySeconds + p.hours * HourSeconds + p.mins * MinuteSeconds + p.secs == ttt
    ensures p.days * DaySeconds + p.hours * HourSeconds + p.mins * MinuteSeconds + p.secs == ttt % YearSeconds
    ensures p.hours * HourSeconds + p.mins * MinuteSeconds + p.secs == (ttt % YearSeconds) % DaySeconds
    ensures p.mins * MinuteSeconds + p.secs == ((ttt % YearSeconds) % DaySeconds) % HourSeconds
    ensures p.days <= 365 && p.hours < 24 && p.mins < 60 && p.secs < 60
  {
    var y := ttt / YearSeconds;
    var r1 := ttt % YearSeconds;
    var r2 := r1 % DaySeconds;
    var r3 := r2 % HourSeconds;
    var p := Parts(y, r1 / DaySeconds, r2 / HourSeconds, r3 / MinuteSeconds, ttt % MinuteSeconds);
    SecondsOfRemainder(ttt, y, r1 / DaySeconds, r2 / HourSeconds, r3);
    p
  }

  /** Taking the total modulo 60 gives the same seconds as the remainder
      after years, days and hours, because each of those units is a whole
      number of minutes. */
  lemma SecondsOfRemainder(ttt: nat, y: nat, d: nat, h: nat, r3: nat)
    requires ttt == y * YearSeconds + d * DaySeconds + h * HourSeconds + r3
    ensures ttt % MinuteSeconds == r3 % MinuteSeconds
  {
    var k := y * 525960 + d * 1440 + h * 60;
    assert ttt == k * MinuteSeconds + r3;
  }

  /** The tier trip_duration_stats prints the total in, as written: its
      thresholds, as half-open ranges. */
  function TotalTier(ttt: nat): (t: Tier)
    ensures t == Secs <==> ttt <= 60
    ensures t == MinsSecs <==> 60 < ttt <= 3600
    ensures t == HoursMinsSecs <==> 3600 < ttt <= 86400
    ensures t == DaysHoursMinsSecs <==> 86400 < ttt <= 34557600
    ensures t == YearsDaysHoursMinsSecs <==> ttt > 34557600
  {
    if ttt <= 60 then Secs
    else if ttt <= 3600 then MinsSecs
    else if ttt <= 86400 then HoursMinsSecs
    else if ttt <= YearTierBound then DaysHoursMinsSecs
    else YearsDaysHoursMinsSecs
  }

  /** The printed total stands for the true total exactly when it is not
      60, 3600 or 86400 seconds and not between one 365.25-day year and
      34557600 seconds: at those values the tier leaves out a non-zero unit. */
  lemma TotalShownExact(ttt: nat)
    ensures Shown(TotalParts(ttt), TotalTier(ttt)) == ttt <==>
              !(ttt == 60 || ttt == 3600 || ttt == 86400 || YearSeconds <= ttt <= YearTierBound)
  {
    var p := TotalParts(ttt);
    if ttt < YearSeconds {
      assert ttt % YearSeconds == ttt;
      if ttt < DaySeconds {
        assert ttt % DaySeconds == ttt;
        if ttt < HourSeconds { assert ttt % HourSeconds == ttt; }
      }
    }
  }

  /** 3600 seconds print as "0 min(s) 0 sec(s)", and one 365.25-day year as
      zero days, hours, minutes and seconds. */
  lemma TotalShownLossy()
    ensures Shown(TotalParts(60), TotalTier(60)) == 0
    ensures Shown(TotalParts(3600), TotalTier(3600)) == 0
    ensures Shown(TotalParts(86400), TotalTier(86400)) == 0
    ensures Shown(TotalParts(YearSeconds), TotalTier(YearSeconds)) == 0
  {
    assert TotalParts(YearSeconds).days == 0;
  }

  /** The total's tiers with strict thresholds and the year tier starting at
      one year. */
  function CorrectedTotalTier(ttt: nat): Tier
  {
    if ttt < 60 then Secs
    else if ttt < 3600 then MinsSecs
    else if ttt < 86400 then HoursMinsSecs
    else if ttt < YearSeconds then DaysHoursMinsSecs
    else YearsDaysHoursMinsSecs
  }

  /** With the corrected tiers the printed total always stands for the total. */
  lemma CorrectedTotalShownExact(ttt: nat)
    ensures Shown(TotalParts(ttt), CorrectedTotalTier(ttt)) == ttt
  {
    var p := TotalParts(ttt);
    if ttt < YearSeconds {
      assert ttt % YearSeconds == ttt;
      if ttt < DaySeconds {
        assert ttt % DaySeconds == ttt;
        if ttt < HourSeconds { assert ttt % HourSeconds == ttt; }
      }
    }
  }

  // ---- the mean ----

  /** The components of the mean: days (unbounded), hours, minutes, seconds. */
  function MeanParts(mtt: nat): (p: Parts)
    ensures p.years == 0
    ensures p.days * DaySeconds + p.hours * HourSeconds + p.mins * MinuteSeconds + p.secs == mtt
    ensures p.hours * HourSeconds + p.mins * MinuteSeconds + p.secs == mtt % DaySeconds
    ensures p.mins * MinuteSeconds + p.secs == (mtt % DaySeconds) % HourSeconds
    ensures p.hours < 24 && p.mins < 60 && p.secs < 60
  {
    var r2 := mtt % DaySeconds;
    var r3 := r2 % HourSeconds;
    SecondsOfRemainder(mtt, 0, mtt / DaySeconds, r2 / HourSeconds, r3);
    Parts(0, mtt / DaySeconds, r2 / HourSeconds, r3 / MinuteSeconds, mtt % MinuteSeconds)
  }

  /** The tier the mean is printed in, as written: the total's tiers up to
      a day, then days, and no year tier. */
  function MeanTier(mtt: nat): (t: Tier)
    ensures t == Secs <==> mtt <= 60
    ensures t == MinsSecs <==> 60 < mtt <= 3600
    ensures t == HoursMinsSecs <==> 3600 < mtt <= 86400
    ensures t == DaysHoursMinsSecs <==> mtt > 86400
    ensures t != YearsDaysHoursMinsSecs
  {
    if mtt <= 60 then Secs
    else if mtt <= 3600 then MinsSecs
    else if mtt <= 86400 then HoursMinsSecs
    else DaysHoursMinsSecs
  }

  /** The printed mean stands for the mean except at 60, 3600 and 86400. */
  lemma MeanShownExact(mtt: nat)
    ensures Shown(MeanParts(mtt), MeanTier(mtt)) == mtt <==> !(mtt == 60 || mtt == 3600 || mtt == 86400)
  {
    var p := MeanParts(mtt);
    if mtt < DaySeconds {
      assert mtt % DaySeconds == mtt;
      if mtt < HourSeconds { assert mtt % HourSeconds == mtt; }
    }
  }

  function CorrectedMeanTier(mtt: nat): Tier
  {
    if mtt < 60 then Secs
    else if mtt < 3600 then MinsSecs
    else if mtt < 86400 then HoursMinsSecs
    else DaysHoursMinsSecs
  }

  lemma CorrectedMeanShownExact(mtt: nat)
    ensures Shown(MeanParts(mtt), CorrectedMeanTier(mtt)) == mtt
  {
    var p := MeanParts(mtt);
    if mtt < DaySeconds {
      assert mtt % DaySeconds == mtt;
      if mtt < HourSeconds { assert mtt % HourSeconds == mtt; }
    }
  }

  // ---- sum and mean of the column ----

  function Sum(s: seq<nat>): nat
  {
    if s == [] then 0 else s[0] + Sum(s[1..])
  }

  function DurationColumn(rows: seq<Trip>): seq<Option<nat>> { Column(rows, (r: Trip) => r.duration) }

  /** The mean of the present durations, rounded down; None where pandas'
      mean() is NaN. */
  function MeanDuration(durations: seq<nat>): (m: Option<nat>)
    ensures m.None? <==> durations == []
    ensures m.Some? ==> m.value * |durations| <= Sum(durations) < (m.value + 1) * |durations|
  {
    if durations == [] then None
    else
      var n := |durations|;
      var q := Sum(durations) / n;
      assert q * n <= Sum(durations) < (q + 1) * n by {
        assert Sum(durations) == q * n + Sum(durations) % n;
      }
      Some(q)
  }

  datatype Breakdown = Breakdown(seconds: nat, parts: Parts, tier: Tier)

  datatype DurationSummary = DurationSummary(total: Breakdown, mean: Option<Breakdown>)

  /** What trip_duration_stats reports: Unavailable without the duration
      column; otherwise the total of the present durations and, when there
      is one, their mean, each with its components and printed tier. With
      no present duration the mean is None: int() of the NaN mean raises. */
  function DurationStatsOf(schema: Schema, rows: seq<Trip>): (r: Stat<DurationSummary>)
    ensures r.Unavailable? <==> !schema.hasDuration
    ensures !r.NoData?
    ensures r.Found? ==> r.value.total.seconds == Sum(Present(DurationColumn(rows)))
    ensures r.Found? ==> Shown(r.value.total.parts, YearsDaysHoursMinsSecs) == r.value.total.seconds
    ensures r.Found? ==> (r.value.mean.None? <==> Present(DurationColumn(rows)) == [])
    ensures r.Found? && r.value.mean.Some? ==>
              var n := |Present(DurationColumn(rows))|;
              var m := r.value.mean.value.seconds;
              m * n <= r.value.total.seconds < (m + 1) * n
    ensures r.Found? && r.value.mean.Some? ==>
              Shown(r.value.mean.value.parts, DaysHoursMinsSecs) == r.value.mean.value.seconds
    ensures r.Found? ==> r.value.total.parts == TotalParts(r.value.total.seconds)
    ensures r.Found? ==> r.value.total.tier == TotalTier(r.value.total.seconds)
    ensures r.Found? && r.value.mean.Some? ==> r.value.mean.value.parts == MeanParts(r.value.mean.value.seconds)
    ensures r.Found? && r.value.mean.Some? ==> r.value.mean.value.tier == MeanTier(r.value.mean.value.seconds)
  {
    if !schema.hasDuration then Unavailable
    else
      var present := Present(DurationColumn(rows));
      var ttt := Sum(present);
      var total := Breakdown(ttt, TotalParts(ttt), TotalTier(ttt));
      var mean := match MeanDuration(present)
        case None => None
        case Some(mtt) => Some(Breakdown(mtt, MeanParts(mtt), MeanTier(mtt)));
      Found(DurationSummary(total, mean))
  }
}
