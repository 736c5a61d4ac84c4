/** fmt's ISO week computation (fmt-11.2.0/include/fmt/chrono.h:1192-1220), against ISO 8601:2004
    sections 2.2.10 and 4.1.4: weeks begin on Monday, and a week belongs to the year that has its
    Thursday. */
module IsoWeek {
  import opened Arith

  // ---------------------------------------------------------------------------------------
  // The code, with the division and remainder of C++

  function TruncDiv(a: int, b: nat): int
    requires b > 0
  {
    if a >= 0 then a / b else -(-a / b)
  }

  function TruncMod(a: int, b: nat): int
    requires b > 0
  {
    a - TruncDiv(a, b) * b
  }

  function YearSum(year: int): int {
    year + TruncDiv(year, 4) - TruncDiv(year, 100) + TruncDiv(year, 400)
  }

  function IsoYearWeeks(year: int): int {
    52 + if TruncMod(YearSum(year), 7) == 4 || TruncMod(YearSum(year - 1), 7) == 3 then 1 else 0
  }

  /** iso_week_num: yday counts from 0, and wday from 0 for Sunday. */
  function IsoWeekNum(yday: nat, wday: nat): int
    requires wday < 7
  {
    TruncDiv(yday + 11 - (if wday == 0 then 7 else wday), 7)
  }

  function TmIsoWeekYear(year: int, yday: nat, wday: nat): int
    requires wday < 7
  {
    var w := IsoWeekNum(yday, wday);
    if w < 1 then year - 1 else if w > IsoYearWeeks(year) then year + 1 else year
  }

  function TmIsoWeekOfYear(year: int, yday: nat, wday: nat): int
    requires wday < 7
  {
    var w := IsoWeekNum(yday, wday);
    if w < 1 then IsoYearWeeks(year - 1) else if w > IsoYearWeeks(year) then 1 else w
  }

  // ---------------------------------------------------------------------------------------
  // The calendar

  predicate Leap(year: int) { year % 4 == 0 && (year % 100 != 0 || year % 400 == 0) }

  function YearLength(year: int): nat { if Leap(year) then 366 else 365 }

  /** The number of the day the Gregorian year begins with; day 0 is 1 January of year 1. */
  function FirstDay(year: int): int {
    365 * (year - 1) + (year - 1) / 4 - (year - 1) / 100 + (year - 1) / 400
  }

  /** Day 0 was a Monday. */
  function DayOfWeek(day: int): nat { (day + 1) % 7 }

  /** The Thursday of the week of a day. */
  function Thursday(day: int): int { day - day % 7 + 3 }

  /** The week of this day has this ISO year and week number. */
  predicate InIsoWeek(day: int, year: int, week: int) {
    && FirstDay(year) <= Thursday(day) < FirstDay(year + 1)
    && week == (Thursday(day) - FirstDay(year)) / 7 + 1
  }

  /** A day of the year and a day of the week that belong together. */
  predicate Consistent(year: int, yday: nat, wday: nat) {
    yday < YearLength(year) && wday == DayOfWeek(FirstDay(year) + yday)
  }

  /** Years follow each other without gaps. */
  lemma NextYear(year: int)
    ensures FirstDay(year + 1) == FirstDay(year) + YearLength(year)
  {
    Quotient(year, 4);
    Quotient(year, 100);
    Quotient(year, 400);
  }

  lemma Quotient(year: int, n: nat)
    requires n in {4, 100, 400}
    ensures year / n == (year - 1) / n + if year % n == 0 then 1 else 0
  {
  }

  /** A year has a 53rd Thursday if its first is on 1 January, or its last on 31 December. */
  predicate Long(year: int) { FirstDay(year) % 7 == 3 || FirstDay(year + 1) % 7 == 4 }

  /** The residues that the code looks at are those of the first days of this year and the next. */
  lemma SumIsFirstDay(year: int)
    requires year >= 0
    ensures TruncMod(YearSum(year), 7) == FirstDay(year + 1) % 7
  {
    AddMultiple(YearSum(year), 52 * year, 7);
  }

  /** Up to year 0 the sums are not positive, and neither are their remainders. */
  lemma NegativeSum(year: int)
    requires year <= 0
    ensures TruncMod(YearSum(year), 7) <= 0
  {
    assert YearSum(year) <= 0;
  }

  lemma NegativeYearWeeks(year: int)
    requires year <= 0
    ensures IsoYearWeeks(year) == 52
  {
    NegativeSum(year);
    NegativeSum(year - 1);
  }

  /** Neither year 0 nor the year before is long. */
  lemma NotLong(year: int)
    requires year == 0 || year == -1
    ensures !Long(year)
  {
    if year == 0 {
      DivModUnique(FirstDay(year), 7, -53, 5);
      DivModUnique(FirstDay(year + 1), 7, 0, 0);
    } else {
      DivModUnique(FirstDay(year), 7, -105, 4);
      DivModUnique(FirstDay(year + 1), 7, -53, 5);
    }
  }

  lemma PositiveYearWeeks(year: int)
    requires year > 0
    ensures IsoYearWeeks(year) == 52 + if Long(year) then 1 else 0
  {
    SumIsFirstDay(year);
    SumIsFirstDay(year - 1);
  }

  /** From year 0 on the code knows the long years; before, it takes every year to have 52 weeks. */
  lemma WeeksOfYear(year: int)
    ensures IsoYearWeeks(year) == 52 + if year >= 0 && Long(year) then 1 else 0
  {
    if year > 0 {
      PositiveYearWeeks(year);
    } else {
      NegativeYearWeeks(year);
      if year >= 0 { NotLong(year); }
    }
  }

  /** The week number before any correction comes from the offset of the Thursday in the year. */
  lemma WeekOfThursday(year: int, yday: nat, wday: nat)
    requires Consistent(year, yday, wday)
    ensures var offset := Thursday(FirstDay(year) + yday) - FirstDay(year);
            -3 <= offset <= yday + 3 && IsoWeekNum(yday, wday) == offset / 7 + 1
  {
    var day := FirstDay(year) + yday;
    AddMod(day, 1, 7);
    var offset := yday + 3 - day % 7;
    DivModUnique(offset + 7, 7, offset / 7 + 1, offset % 7);
  }

  /** A Thursday in the 53rd week from the start of a year of this length is still in it exactly if
      the year begins on a Thursday or the next on a Friday. */
  lemma FiftyThird(first: int, length: nat, offset: nat)
    requires 365 <= length <= 366 && (first + offset) % 7 == 3 && 364 <= offset < 371
    ensures offset < length <==> first % 7 == 3 || (first + length) % 7 == 4
  {
    AddMultiple(first + offset - 364, 52, 7);
    AddMultiple(first + length - 364, 52, 7);
    AddMod(first, offset - 364, 7);
    AddMod(first, length - 364, 7);
  }

  /** The condition under which the code is right: the week is not the 53rd of a year before year
      0.  A week before the first of its year is the last one of the year before. */
  predicate Covered(year: int, yday: nat, wday: nat)
    requires wday < 7
  {
    var w := IsoWeekNum(yday, wday);
    if w < 1 then year > 0 || !Long(year - 1) else w <= 52 || year >= 0 || !Long(year)
  }

  /** The ISO week of a day whose Thursday is at some offset in a year. */
  lemma WeekByOffset(day: int, year: int, offset: nat, week: int)
    requires Thursday(day) == FirstDay(year) + offset && offset < YearLength(year)
    ensures InIsoWeek(day, year, week) <==> week == offset / 7 + 1
  {
    NextYear(year);
  }

  lemma ThursdayIsThursday(day: int)
    ensures Thursday(day) % 7 == 3
  {
    assert Thursday(day) == 3 + day / 7 * 7;
    AddMultiple(3, day / 7, 7);
  }

  /** The last Thursday of a year is in its last week. */
  lemma ThursdayLastYear(day: int, year: int, offset: nat)
    requires Thursday(day) == FirstDay(year) + offset && YearLength(year) - 3 <= offset < YearLength(year)
    ensures InIsoWeek(day, year, 52 + if Long(year) then 1 else 0)
  {
    ThursdayIsThursday(day);
    NextYear(year);
    if offset >= 364 {
      FiftyThird(FirstDay(year), YearLength(year), offset);
    } else {
      AddMultiple(FirstDay(year) + offset, 1, 7);
      FiftyThird(FirstDay(year), YearLength(year), offset + 7);
    }
    WeekByOffset(day, year, offset, 52 + if Long(year) then 1 else 0);
  }

  /** A Thursday 52 weeks after the first one of a year is in the 53rd week of a long year, or in
      the first week of the next. */
  lemma ThursdayFiftyThird(day: int, year: int, offset: nat)
    requires Thursday(day) == FirstDay(year) + offset && 364 <= offset < 370
    ensures if Long(year) then InIsoWeek(day, year, 53) && !InIsoWeek(day, year + 1, 1) else InIsoWeek(day, year + 1, 1)
  {
    ThursdayIsThursday(day);
    NextYear(year);
    FiftyThird(FirstDay(year), YearLength(year), offset);
    if Long(year) {
      WeekByOffset(day, year, offset, 53);
    } else {
      WeekByOffset(day, year + 1, offset - YearLength(year), 1);
    }
  }

  /** For consistent dates the code names the year and the week of the Thursday, if and only if the
      condition holds. */
  lemma IsoWeekExact(year: int, yday: nat, wday: nat)
    requires Consistent(year, yday, wday)
    ensures InIsoWeek(FirstDay(year) + yday, TmIsoWeekYear(year, yday, wday), TmIsoWeekOfYear(year, yday, wday))
            <==> Covered(year, yday, wday)
  {
    var day := FirstDay(year) + yday;
    var offset := Thursday(day) - FirstDay(year);
    WeekOfThursday(year, yday, wday);
    if offset < 0 {
      FirstWeek(year, yday, wday, offset);
    } else if offset < 364 {
      WeeksOfYear(year);
      WeekByOffset(day, year, offset, offset / 7 + 1);
    } else {
      WeeksOfYear(year);
      ThursdayFiftyThird(day, year, offset);
    }
  }

  /** The days before the first week of a year. */
  lemma FirstWeek(year: int, yday: nat, wday: nat, offset: int)
    requires Consistent(year, yday, wday) && offset == Thursday(FirstDay(year) + yday) - FirstDay(year)
    requires -3 <= offset < 0 && IsoWeekNum(yday, wday) < 1
    ensures InIsoWeek(FirstDay(year) + yday, year - 1, IsoYearWeeks(year - 1)) <==> year > 0 || !Long(year - 1)
  {
    var day := FirstDay(year) + yday;
    WeeksOfYear(year - 1);
    NextYear(year - 1);
    ThursdayLastYear(day, year - 1, offset + YearLength(year - 1));
    WeekByOffset(day, year - 1, offset + YearLength(year - 1), IsoYearWeeks(year - 1));
  }

  /** From year 0 on the code is right for every date. */
  lemma IsoWeekFromYearZero(year: int, yday: nat, wday: nat)
    requires year >= 0 && Consistent(year, yday, wday)
    ensures InIsoWeek(FirstDay(year) + yday, TmIsoWeekYear(year, yday, wday), TmIsoWeekOfYear(year, yday, wday))
  {
    IsoWeekExact(year, yday, wday);
    NotLong(-1);
  }

  /** No week has two ISO years or two numbers. */
  lemma InIsoWeekUnique(day: int, year: int, week: int, year': int, week': int)
    requires InIsoWeek(day, year, week) && InIsoWeek(day, year', week')
    ensures year == year' && week == week'
  {
    if year < year' { FirstDayGrows(year + 1, year'); }
    if year' < year { FirstDayGrows(year' + 1, year); }
  }

  lemma {:induction false} FirstDayGrows(a: int, b: int)
    requires a <= b
    ensures FirstDay(a) <= FirstDay(b)
    decreases b - a
  {
    if a < b {
      FirstDayGrows(a, b - 1);
      NextYear(b - 1);
    }
  }

  /** 29 December of year -2, a Wednesday, is in the 53rd week of that year; the code says it is in
      the first week of year -1. */
  lemma BeforeYearZero()
    ensures Consistent(-2, 363, 3) && TmIsoWeekYear(-2, 363, 3) == -1 && TmIsoWeekOfYear(-2, 363, 3) == 1
    ensures InIsoWeek(FirstDay(-2) + 363, -2, 53)
  {
    assert FirstDay(-2) == -1096 && FirstDay(-1) == -731 && !Leap(-2);
    DivModUnique(-732, 7, -105, 3);
    DivModUnique(-733, 7, -105, 2);
    assert DayOfWeek(-733) == 3 && Thursday(-733) == -732;
    assert IsoWeekNum(363, 3) == 53;
    NegativeYearWeeks(-2);
  }

  /** 1 January 2021, a Friday, is in the 53rd week of 2020, and 30 December 2024, a Monday, in the first of
      2025; and that is what the code says. */
  lemma KnownDates()
    ensures Consistent(2021, 0, 5) && TmIsoWeekYear(2021, 0, 5) == 2020 && TmIsoWeekOfYear(2021, 0, 5) == 53
    ensures Consistent(2024, 364, 1) && TmIsoWeekYear(2024, 364, 1) == 2025 && TmIsoWeekOfYear(2024, 364, 1) == 1
  {
    assert IsoWeekNum(0, 5) == 0 && IsoWeekNum(364, 1) == 53;
    assert IsoYearWeeks(2020) == 53 && IsoYearWeeks(2024) == 52;
  }
}
