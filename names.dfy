/** Month and weekday names, Python's str.title() on ASCII text, and the
    name lookups of time_stats. */
module Names {

  /** The month names the selector accepts, in calendar order. */
  const MonthNames: seq<string> := ["january", "february", "march", "april", "may", "june"]

  /** The weekday names the selector accepts, Monday first. */
  const DayNames: seq<string> := ["monday", "tuesday", "wednesday", "thursday", "friday", "saturday", "sunday"]

  /** The names the calendar gives a weekday (Monday = 0). */
  const WeekdayNames: seq<string> := ["Monday", "Tuesday", "Wednesday", "Thursday", "Friday", "Saturday", "Sunday"]

  predicate IsLower(c: char) { 'a' <= c <= 'z' }
  predicate IsUpper(c: char) { 'A' <= c <= 'Z' }
  predicate IsCased(c: char) { IsLower(c) || IsUpper(c) }

  function ToUpper(c: char): char { if IsLower(c) then (c as int - 32) as char else c }
  function ToLower(c: char): char { if IsUpper(c) then (c as int + 32) as char else c }

  /** str.title(): a cased letter is upper-cased when it starts a run of cased
      letters and lower-cased otherwise; other characters are kept. */
  function Title(s: string): (r: string)
    ensures |r| == |s|
  {
    TitleFromShape(s, false);
    TitleFrom(s, false)
  }

  function TitleFrom(s: string, afterCased: bool): string
    decreases |s|
  {
    if s == [] then []
    else if IsCased(s[0]) then
      [if afterCased then ToLower(s[0]) else ToUpper(s[0])] + TitleFrom(s[1..], true)
    else [s[0]] + TitleFrom(s[1..], false)
  }

  /** Title-casing spells the same letters in the same places, upper-cases
      every letter that starts a word and lower-cases every other letter. */
  lemma TitleShape(s: string)
    ensures |Title(s)| == |s|
    ensures forall i :: 0 <= i < |s| ==> ToLower(Title(s)[i]) == ToLower(s[i])
    ensures forall i :: 0 <= i < |s| ==> IsCased(Title(s)[i]) == IsCased(s[i])
    ensures forall i :: 0 <= i < |s| && IsCased(s[i]) && (i == 0 || !IsCased(s[i - 1])) ==> IsUpper(Title(s)[i])
    ensures forall i :: 0 < i < |s| && IsCased(s[i]) && IsCased(s[i - 1]) ==> IsLower(Title(s)[i])
  {
    TitleFromShape(s, false);
  }

  lemma {:induction false} TitleFromShape(s: string, afterCased: bool)
    ensures |TitleFrom(s, afterCased)| == |s|
    ensures forall i :: 0 <= i < |s| ==> ToLower(TitleFrom(s, afterCased)[i]) == ToLower(s[i])
    ensures forall i :: 0 <= i < |s| ==> IsCased(TitleFrom(s, afterCased)[i]) == IsCased(s[i])
    ensures forall i :: 0 <= i < |s| && IsCased(s[i]) && (if i == 0 then !afterCased else !IsCased(s[i - 1])) ==>
              IsUpper(TitleFrom(s, afterCased)[i])
    ensures forall i :: 0 <= i < |s| && IsCased(s[i]) && (if i == 0 then afterCased else IsCased(s[i - 1])) ==>
              IsLower(TitleFrom(s, afterCased)[i])
    decreases |s|
  {
    if s != [] {
      TitleFromShape(s[1..], IsCased(s[0]));
      var r := TitleFrom(s, afterCased);
      assert r[1..] == TitleFrom(s[1..], IsCased(s[0]));
      assert forall i :: 1 <= i < |s| ==> r[i] == r[1..][i - 1] && s[i] == s[1..][i - 1];
    }
  }

  /** A lower-case word that follows a letter is left as it is. */
  lemma {:induction false} TitleFromLowerWord(s: string)
    requires forall i :: 0 <= i < |s| ==> IsLower(s[i])
    ensures TitleFrom(s, true) == s
    decreases |s|
  {
    if s != [] {
      TitleFromLowerWord(s[1..]);
    }
  }

  /** A non-empty lower-case word, title-cased, gets an upper-case initial. */
  lemma TitleLowerWord(s: string)
    requires |s| > 0 && forall i :: 0 <= i < |s| ==> IsLower(s[i])
    ensures Title(s) == [ToUpper(s[0])] + s[1..]
  {
    TitleFromLowerWord(s[1..]);
  }

  /** A selector day name, title-cased, is the calendar's name of that weekday. */
  lemma DayNameTitle(k: nat)
    requires k < 7
    ensures Title(DayNames[k]) == WeekdayNames[k]
  {
    var s := DayNames[k];
    assert s[1..] == WeekdayNames[k][1..];
    assert forall i :: 0 <= i < |s| ==> IsLower(s[i]);
    TitleLowerWord(s);
  }

  /** Position of the first occurrence of x (Python's list.index). */
  function IndexOf<T(==)>(xs: seq<T>, x: T): (i: nat)
    requires x in xs
    ensures i < |xs| && xs[i] == x
    ensures forall j :: 0 <= j < i ==> xs[j] != x
  {
    if xs[0] == x then 0 else 1 + IndexOf(xs[1..], x)
  }

  /** Month name of the most popular month, as time_stats finds it: the loop
      runs over all six names and, when none matches, ends on the last one. */
  function MonthNameOf(m: int): (name: string)
    ensures name in MonthNames
    ensures !(1 <= m <= |MonthNames|) ==> name == "june"
  {
    if 1 <= m <= |MonthNames| then MonthNames[m - 1] else MonthNames[|MonthNames| - 1]
  }

  /** The month name found for m sits at position m - 1 of the list, so
      list.index of it gives m back. */
  lemma MonthNameIndex(m: int)
    requires 1 <= m <= |MonthNames|
    ensures IndexOf(MonthNames, MonthNameOf(m)) == m - 1
  {
  }

  /** Day name of the most popular weekday, with the same fall-through. */
  function DayNameOf(d: int): (name: string)
    ensures name in DayNames
    ensures !(0 <= d < |DayNames|) ==> name == "sunday"
  {
    if 0 <= d < |DayNames| then DayNames[d] else DayNames[|DayNames| - 1]
  }

  /** The day name found for d sits at position d of the list. */
  lemma DayNameIndex(d: int)
    requires 0 <= d < |DayNames|
    ensures IndexOf(DayNames, DayNameOf(d)) == d
  {
  }

  /** time_stats' search over the month names: stop at the name whose
      position plus one is the popular month. */
  method LookupMonthName(popular: int) returns (name: string)
    ensures 1 <= popular <= 6 ==> name == MonthNames[popular - 1]
    ensures !(1 <= popular <= 6) ==> name == "june"
    ensures name == MonthNameOf(popular)
  {
    var i := 0;
    name := MonthNames[0];
    while i < |MonthNames|
      invariant 0 <= i <= |MonthNames|
      invariant i > 0 ==> name == MonthNames[i - 1]
      invariant !(1 <= popular <= i)
    {
      name := MonthNames[i];
      var at := IndexOf(MonthNames, name);
      assert at == i;
      if at + 1 == popular {
        break;
      }
      i := i + 1;
    }
  }

  /** time_stats' search over the day names: stop at the name whose position
      is the popular weekday. */
  method LookupDayName(popular: int) returns (name: string)
    ensures 0 <= popular <= 6 ==> name == DayNames[popular]
    ensures !(0 <= popular <= 6) ==> name == "sunday"
    ensures name == DayNameOf(popular)
  {
    var i := 0;
    name := DayNames[0];
    while i < |DayNames|
      invariant 0 <= i <= |DayNames|
      invariant i > 0 ==> name == DayNames[i - 1]
      invariant !(0 <= popular < i)
    {
      name := DayNames[i];
      var at := IndexOf(DayNames, name);
      assert at == i;
      if at == popular {
        break;
      }
      i := i + 1;
    }
  }
}
