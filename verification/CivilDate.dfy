/** Calendar dates from a count of days, in the proleptic Gregorian calendar. */
module CivilDate {
  import opened Arith

  datatype Date = Date(year: int, month: int, day: int)

  // ---------------------------------------------------------------------
  // Reference: the calendar
  // ---------------------------------------------------------------------

  predicate Leap(year: int) { year % 4 == 0 && (year % 100 != 0 || year % 400 == 0) }

  function DaysIn(year: int, month: int): (n: nat)
    requires 1 <= month <= 12
    ensures 28 <= n <= 31
  {
    if month == 2 then (if Leap(year) then 29 else 28)
    else if month == 4 || month == 6 || month == 9 || month == 11 then 30
    else 31
  }

  predicate Valid(d: Date)
  {
    1 <= d.month <= 12 && 1 <= d.day <= DaysIn(d.year, d.month)
  }

  function Successor(d: Date): (next: Date)
    requires Valid(d)
    ensures Valid(next)
  {
    if d.day < DaysIn(d.year, d.month) then d.(day := d.day + 1)
    else if d.month < 12 then Date(d.year, d.month + 1, 1)
    else Date(d.year + 1, 1, 1)
  }

  /** Days from the first of January of year 1 to that of a year. */
  function DaysBeforeYear(year: int): int
  {
    365 * (year - 1) + (year - 1) / 4 - (year - 1) / 100 + (year - 1) / 400
  }

  function DaysBeforeMonth(year: int, month: int): nat
    requires 1 <= month <= 12
  {
    if month == 1 then 0 else DaysBeforeMonth(year, month - 1) + DaysIn(year, month - 1)
  }

  /** Days since the first of January 1970. */
  function DayNumber(d: Date): int
    requires 1 <= d.month <= 12
  {
    DaysBeforeYear(d.year) + DaysBeforeMonth(d.year, d.month) + d.day - 1 - 719_162
  }

  lemma YearLength(year: int)
    ensures DaysBeforeYear(year + 1) == DaysBeforeYear(year) + if Leap(year) then 366 else 365
  {
    QuotientSteps(year, 4);
    QuotientSteps(year, 100);
    QuotientSteps(year, 400);
    LeapByQuotients(year);
  }

  lemma QuotientSteps(n: int, d: int)
    requires d >= 1
    ensures n / d == (n - 1) / d + if n % d == 0 then 1 else 0
  {
    var q, r := n / d, n % d;
    assert n == d * q + r;
    if r == 0 {
      assert n - 1 == d * (q - 1) + (d - 1);
      DivModUnique(n - 1, d, q - 1, d - 1);
    } else {
      DivModUnique(n - 1, d, q, r - 1);
    }
  }

  lemma LeapByQuotients(year: int)
    ensures year % 400 == 0 ==> year % 100 == 0
    ensures year % 100 == 0 ==> year % 4 == 0
  {
  }

  lemma MonthTable(year: int, month: int)
    requires 1 <= month <= 12
    ensures DaysBeforeMonth(year, month)
         == [0, 31, 59, 90, 120, 151, 181, 212, 243, 273, 304, 334][month - 1]
            + if Leap(year) && month > 2 then 1 else 0
  {
    if month > 1 {
      MonthTable(year, month - 1);
    }
  }

  /** The next date is the next day. */
  lemma SuccessorIsNext(d: Date)
    requires Valid(d)
    ensures DayNumber(Successor(d)) == DayNumber(d) + 1
  {
    if d.day == DaysIn(d.year, d.month) && d.month == 12 {
      YearLength(d.year);
      MonthTable(d.year, 12);
    }
  }

  // ---------------------------------------------------------------------
  // The conversion
  // ---------------------------------------------------------------------

  /** Division rounding towards zero. */
  function Truncated(a: int, b: nat): int
    requires b >= 1
  {
    if a >= 0 then a / b else -((-a) / b)
  }

  function CivilFromDays(days: int): Date
  {
    var z := days + 719_468;
    var era := Truncated(if z >= 0 then z else z - 146_096, 146_097);
    var dayOfEra := z - era * 146_097;
    var yearOfEra :=
      Truncated(dayOfEra - Truncated(dayOfEra, 1_460) + Truncated(dayOfEra, 36_524) - Truncated(dayOfEra, 146_096),
                365);
    var year := yearOfEra + era * 400;
    var dayOfYear := dayOfEra - (365 * yearOfEra + Truncated(yearOfEra, 4) - Truncated(yearOfEra, 100));
    var monthPrime := Truncated(5 * dayOfYear + 2, 153);
    var day := dayOfYear - Truncated(153 * monthPrime + 2, 5) + 1;
    var month := monthPrime + if monthPrime < 10 then 3 else -9;
    Date(if month <= 2 then year + 1 else year, month, day)
  }

  lemma EraIsFloor(z: int)
    ensures Truncated(if z >= 0 then z else z - 146_096, 146_097) == z / 146_097
    ensures 0 <= z - z / 146_097 * 146_097 < 146_097
  {
  }

  /** Days from the first of March of the era's first year to that of year `y`. */
  function MarchDays(y: int): int
  {
    365 * y + y / 4 - y / 100
  }

  /** The year of the era is the one whose March is the last not after the day. */
  lemma YearOfEra(doe: int, y: int)
    requires 0 <= doe < 146_097 && y == (doe - doe / 1_460 + doe / 36_524 - doe / 146_096) / 365
    ensures 0 <= y < 400 && MarchDays(y) <= doe
    ensures doe < if y == 399 then 146_097 else MarchDays(y + 1)
  {
    var c := if doe == 146_096 then 3 else doe / 36_524;
    var doc := doe - 36_524 * c;
    CenturyOfEra(doe, c, doc);
    YearOfCentury(doc, y - 100 * c, c);
    CenturyDays(c, y - 100 * c);
    if y != 399 {
      NextYear(c, y - 100 * c);
    }
  }

  /** A year's place within its century decides its first day. */
  lemma CenturyDays(c: int, y: int)
    requires 0 <= c <= 3 && 0 <= y < 100
    ensures MarchDays(100 * c + y) == 36_524 * c + 365 * y + y / 4
  {
  }

  lemma NextYear(c: int, y: int)
    requires 0 <= c <= 3 && 0 <= y < 100 && (c < 3 || y < 99)
    ensures MarchDays(100 * c + y + 1) == if y == 99 then 36_524 * (c + 1) else 36_524 * c + 365 * (y + 1) + (y + 1) / 4
  {
  }

  lemma CenturyOfEra(doe: int, c: int, doc: int)
    requires 0 <= doe < 146_097 && c == (if doe == 146_096 then 3 else doe / 36_524) && doc == doe - 36_524 * c
    ensures 0 <= c <= 3 && 0 <= doc <= 36_524 && (c < 3 ==> doc < 36_524)
    ensures doe / 36_524 - doe / 146_096 == c
  {
  }

  lemma YearOfCentury(doc: int, y: int, c: int)
    requires 0 <= c <= 3 && 0 <= doc <= 36_524 && (c < 3 ==> doc < 36_524)
    requires y == (doc + 36_524 * c - (doc + 36_524 * c) / 1_460 + c) / 365 - 100 * c
    ensures 0 <= y < 100 && 365 * y + y / 4 <= doc
    ensures doc < 365 * (y + 1) + (y + 1) / 4 || y == 99
  {
  }

  /** Days from the first of March to the first of the month `mp` months later. */
  function MarchTable(mp: int): int
    requires 0 <= mp <= 11
  {
    [0, 31, 61, 92, 122, 153, 184, 214, 245, 275, 306, 337][mp]
  }

  lemma MarchFormula(mp: int)
    requires 0 <= mp <= 11
    ensures (153 * mp + 2) / 5 == MarchTable(mp)
  {
  }

  /** The month is the last one to start not after the day. */
  lemma MonthOfYear(doy: int, mp: int)
    requires 0 <= doy <= 365 && mp == (5 * doy + 2) / 153
    ensures 0 <= mp <= 11 && MarchTable(mp) <= doy
    ensures mp < 11 ==> doy < MarchTable(mp + 1)
  {
    MarchFormula(mp);
    if mp < 11 {
      MarchFormula(mp + 1);
    }
  }

  /** Days from the first of March of year 0 to that of year `year`. */
  function MarchStart(year: int): int
  {
    365 * year + year / 4 - year / 100 + year / 400
  }

  lemma EraSplits(era: int, y: int)
    requires 0 <= y < 400
    ensures MarchStart(400 * era + y) == 146_097 * era + MarchDays(y)
    ensures Leap(400 * era + y + 1) <==> Leap(y + 1)
  {
    DivModShift(y, 4, 100 * era);
    DivModShift(y, 100, 4 * era);
    DivModShift(y, 400, era);
    DivModShift(y + 1, 4, 100 * era);
    DivModShift(y + 1, 100, 4 * era);
    DivModShift(y + 1, 400, era);
  }

  /** A year counted from March has the leap day of the year it ends in. */
  lemma YearEnds(y: int)
    requires 0 <= y < 400
    ensures (if y == 399 then 146_097 else MarchDays(y + 1)) == MarchDays(y) + if Leap(y + 1) then 366 else 365
  {
    QuotientSteps(y + 1, 4);
    QuotientSteps(y + 1, 100);
  }

  /** The date `day` days into the month `mp` months after the March of `year`. */
  function FromMarch(year: int, mp: int, day: int): Date
  {
    if mp < 10 then Date(year, mp + 3, day) else Date(year + 1, mp - 9, day)
  }

  /** The number of a date counted from March. */
  lemma NumberFromMarch(year: int, mp: int, day: int, d: Date)
    requires 0 <= mp <= 11
    requires d == FromMarch(year, mp, day)
    ensures DayNumber(d) == MarchStart(year) + MarchTable(mp) + day - 1 - 719_468
  {
    YearLength(year);
    MonthTable(d.year, d.month);
  }

  lemma MonthFits(year: int, mp: int, doy: int)
    requires 0 <= mp <= 11 && MarchTable(mp) <= doy && (mp < 11 ==> doy < MarchTable(mp + 1))
    requires doy < if Leap(year + 1) then 366 else 365
    ensures doy - MarchTable(mp) + 1
         <= if mp < 10 then DaysIn(year, mp + 3) else DaysIn(year + 1, mp - 9)
  {
  }

  /** The conversion with its divisions resolved. */
  lemma Conversion(days: int, era: int, doe: int, y: int, doy: int, mp: int)
    requires era == (days + 719_468) / 146_097 && doe == days + 719_468 - era * 146_097
    requires 0 <= doe < 146_097 && y == (doe - doe / 1_460 + doe / 36_524 - doe / 146_096) / 365
    requires 0 <= y < 400 && doy == doe - MarchDays(y) && 0 <= doy <= 365
    requires mp == (5 * doy + 2) / 153 && 0 <= mp <= 11
    ensures CivilFromDays(days) == FromMarch(y + era * 400, mp, doy - MarchTable(mp) + 1)
  {
    EraIsFloor(days + 719_468);
    MarchFormula(mp);
    Nonnegative(doe);
  }

  lemma Nonnegative(doe: int)
    requires 0 <= doe < 146_097
    ensures doe - doe / 1_460 + doe / 36_524 - doe / 146_096 >= 0
  {
  }

  // ---------------------------------------------------------------------
  // A bijection that follows the calendar
  // ---------------------------------------------------------------------

  /** Every day has a valid date, and that date's number is the day. */
  lemma DayToDateToDay(days: int)
    ensures Valid(CivilFromDays(days)) && DayNumber(CivilFromDays(days)) == days
  {
    var z := days + 719_468;
    var era := z / 146_097;
    var doe := z - era * 146_097;
    EraIsFloor(z);
    var y := (doe - doe / 1_460 + doe / 36_524 - doe / 146_096) / 365;
    YearOfEra(doe, y);
    YearEnds(y);
    var doy := doe - MarchDays(y);
    var mp := (5 * doy + 2) / 153;
    MonthOfYear(doy, mp);
    Conversion(days, era, doe, y, doy, mp);
    Numbered(days, era, y, doy, mp, y + era * 400);
  }

  lemma Numbered(days: int, era: int, y: int, doy: int, mp: int, year: int)
    requires 0 <= y < 400 && year == y + era * 400
    requires days + 719_468 == era * 146_097 + MarchDays(y) + doy
    requires doy < if Leap(y + 1) then 366 else 365
    requires 0 <= mp <= 11 && MarchTable(mp) <= doy && (mp < 11 ==> doy < MarchTable(mp + 1))
    ensures var d := FromMarch(year, mp, doy - MarchTable(mp) + 1); Valid(d) && DayNumber(d) == days
  {
    EraSplits(era, y);
    MonthFits(year, mp, doy);
    NumberFromMarch(year, mp, doy - MarchTable(mp) + 1, FromMarch(year, mp, doy - MarchTable(mp) + 1));
  }

  predicate Earlier(a: Date, b: Date)
  {
    a.year < b.year || (a.year == b.year && (a.month < b.month || (a.month == b.month && a.day < b.day)))
  }

  lemma {:induction false} YearsGrow(a: int, b: int)
    requires a <= b
    ensures DaysBeforeYear(a) + 365 * (b - a) <= DaysBeforeYear(b)
    decreases b - a
  {
    if a < b {
      YearsGrow(a, b - 1);
      YearLength(b - 1);
    }
  }

  lemma {:induction false} MonthsGrow(year: int, a: int, b: int)
    requires 1 <= a < b <= 12
    ensures DaysBeforeMonth(year, a) + DaysIn(year, a) <= DaysBeforeMonth(year, b)
    decreases b
  {
    if a < b - 1 {
      MonthsGrow(year, a, b - 1);
    }
  }

  /** Later dates have greater numbers. */
  lemma NumbersFollowDates(a: Date, b: Date)
    requires Valid(a) && Valid(b) && Earlier(a, b)
    ensures DayNumber(a) < DayNumber(b)
  {
    if a.year < b.year {
      YearsGrow(a.year + 1, b.year);
      YearLength(a.year);
      if a.month < 12 {
        MonthsGrow(a.year, a.month, 12);
      }
      MonthTable(a.year, 12);
    } else if a.month < b.month {
      MonthsGrow(a.year, a.month, b.month);
    }
  }

  /** Every valid date comes back from its number. */
  lemma DateToDayToDate(d: Date)
    requires Valid(d)
    ensures CivilFromDays(DayNumber(d)) == d
  {
    var back := CivilFromDays(DayNumber(d));
    DayToDateToDay(DayNumber(d));
    if Earlier(back, d) {
      NumbersFollowDates(back, d);
    } else if Earlier(d, back) {
      NumbersFollowDates(d, back);
    }
  }

  lemma DateOfNumber(d: Date, days: int)
    requires Valid(d) && DayNumber(d) == days
    ensures CivilFromDays(days) == d
  {
    DateToDayToDate(d);
  }

  /** The date of the next day is the next date. */
  lemma NextDayNextDate(days: int, d: Date)
    requires d == CivilFromDays(days)
    ensures Valid(d) && CivilFromDays(days + 1) == Successor(d)
  {
    DayToDateToDay(days);
    SuccessorIsNext(d);
    DateOfNumber(Successor(d), days + 1);
  }
}
