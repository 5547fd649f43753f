/** The proleptic Gregorian calendar of section 21.4.1 of ECMA-262, on instants in milliseconds. */
module Calendar {

  const MS_PER_DAY := 86_400_000

  function DayOf(t: int): int { t / MS_PER_DAY }

  function TimeInDay(t: int): int { t % MS_PER_DAY }

  predicate IsLeap(y: int) { y % 4 == 0 && (y % 100 != 0 || y % 400 == 0) }

  /** The day number of the first of January, as the standard computes it. */
  function DayFromYear(y: int): int {
    365 * (y - 1970) + (y - 1969) / 4 - (y - 1901) / 100 + (y - 1601) / 400
  }

  /** Days of the year before a month starts. */
  function DaysBefore(month: int, leap: bool): int
    requires 0 <= month < 12
  {
    [0, 31, 59, 90, 120, 151, 181, 212, 243, 273, 304, 334][month] + (if leap && month >= 2 then 1 else 0)
  }

  /** Months are numbered through the years: month `m` of year `y` is `12 * y + m`. */
  function MonthStart(month: int): int {
    DayFromYear(month / 12) + DaysBefore(month % 12, IsLeap(month / 12))
  }

  function MonthLength(month: int): int { MonthStart(month + 1) - MonthStart(month) }

  lemma FourthYears(y: int)
    ensures (y + 1 - 1969) / 4 == (y - 1969) / 4 + if y % 4 == 0 then 1 else 0
  {
  }

  lemma Centuries(y: int)
    ensures (y + 1 - 1901) / 100 == (y - 1901) / 100 + if y % 100 == 0 then 1 else 0
  {
  }

  lemma FourthCenturies(y: int)
    ensures (y + 1 - 1601) / 400 == (y - 1601) / 400 + if y % 400 == 0 then 1 else 0
  {
  }

  lemma CenturiesAreFourthYears(y: int)
    ensures (y % 100 == 0 ==> y % 4 == 0) && (y % 400 == 0 ==> y % 100 == 0)
  {
  }

  function DaysAndLeapDays(years: int, fourths: int, centuries: int, fourthCenturies: int): int {
    365 * years + fourths - centuries + fourthCenturies
  }

  lemma YearLength(y: int)
    ensures DayFromYear(y + 1) - DayFromYear(y) == if IsLeap(y) then 366 else 365
  {
    var fourths, centuries, fourthCenturies := (y - 1969) / 4, (y - 1901) / 100, (y - 1601) / 400;
    assert DayFromYear(y) == DaysAndLeapDays(y - 1970, fourths, centuries, fourthCenturies);
    assert DayFromYear(y + 1) == DaysAndLeapDays(y - 1969, (y + 1 - 1969) / 4, (y + 1 - 1901) / 100, (y + 1 - 1601) / 400);
    hide DayFromYear;
    FourthYears(y);
    Centuries(y);
    FourthCenturies(y);
    CenturiesAreFourthYears(y);
  }

  lemma MonthLengthBounds(month: int)
    ensures 28 <= MonthLength(month) <= 31
    ensures month % 12 != 1 ==> MonthLength(month) >= 30
    ensures month % 12 == 1 ==> MonthLength(month) == if IsLeap(month / 12) then 29 else 28
  {
    YearLength(month / 12);
    hide DayFromYear;
    if month % 12 == 11 {
      assert (month + 1) / 12 == month / 12 + 1 && (month + 1) % 12 == 0;
    } else {
      assert (month + 1) / 12 == month / 12 && (month + 1) % 12 == month % 12 + 1;
    }
  }

  /** Thirty days has September, numbered from January as zero. */
  lemma MonthLengths(month: int)
    ensures month % 12 in {0, 2, 4, 6, 7, 9, 11} ==> MonthLength(month) == 31
    ensures month % 12 in {3, 5, 8, 10} ==> MonthLength(month) == 30
    ensures month % 12 == 1 ==> MonthLength(month) == if IsLeap(month / 12) then 29 else 28
  {
    YearLength(month / 12);
    hide DayFromYear;
    if month % 12 == 11 {
      assert (month + 1) / 12 == month / 12 + 1 && (month + 1) % 12 == 0;
    } else {
      assert (month + 1) / 12 == month / 12 && (month + 1) % 12 == month % 12 + 1;
    }
  }

  /** The same month of another year is as long, February apart. */
  lemma SameMonthSameLength(month: int, years: int)
    ensures (month + 12 * years) / 12 == month / 12 + years && (month + 12 * years) % 12 == month % 12
    ensures month % 12 != 1 ==> MonthLength(month + 12 * years) == MonthLength(month)
  {
    MonthLengths(month);
    MonthLengths(month + 12 * years);
    hide MonthLength;
  }

  function Distance(day: int, month: int): nat {
    if day < MonthStart(month) then MonthStart(month) - day
    else if day >= MonthStart(month + 1) then day - MonthStart(month + 1) + 1 else 0
  }

  lemma WalkingBack(day: int, month: int)
    requires day < MonthStart(month)
    ensures Distance(day, month - 1) < Distance(day, month)
  {
    MonthLengthBounds(month - 1);
    hide MonthStart;
    assert month - 1 + 1 == month;
  }

  lemma WalkingOn(day: int, month: int)
    requires day >= MonthStart(month + 1)
    ensures Distance(day, month + 1) < Distance(day, month)
  {
    MonthLengthBounds(month);
    MonthLengthBounds(month + 1);
    hide MonthStart;
  }

  /** The month a day falls in, found by walking from a guess. */
  function MonthFrom(day: int, guess: int): (month: int)
    ensures MonthStart(month) <= day < MonthStart(month + 1)
    decreases Distance(day, guess)
  {
    hide MonthStart, Distance;
    if day < MonthStart(guess) then
      WalkingBack(day, guess);
      MonthFrom(day, guess - 1)
    else if day >= MonthStart(guess + 1) then
      WalkingOn(day, guess);
      MonthFrom(day, guess + 1)
    else guess
  }

  function MonthOf(day: int): (month: int)
    ensures MonthStart(month) <= day < MonthStart(month + 1)
  {
    hide MonthStart;
    MonthFrom(day, 12 * 1970)
  }

  /** The day of the month, from 1. */
  function DateOf(day: int): (date: int)
    ensures 1 <= date <= MonthLength(MonthOf(day))
  {
    day - MonthStart(MonthOf(day)) + 1
  }

  lemma {:induction false} MonthsInOrder(a: int, b: int)
    requires a <= b
    ensures MonthStart(a) + 28 * (b - a) <= MonthStart(b)
    decreases b - a
  {
    hide MonthStart;
    if a < b {
      MonthLengthBounds(b - 1);
      assert b - 1 + 1 == b;
      MonthsInOrder(a, b - 1);
    }
  }

  /** A day is in one month only. */
  lemma MonthIsUnique(day: int, month: int)
    requires MonthStart(month) <= day < MonthStart(month + 1)
    ensures MonthOf(day) == month && DateOf(day) == day - MonthStart(month) + 1
  {
    hide MonthStart, MonthOf;
    var found := MonthOf(day);
    if found < month { MonthsInOrder(found + 1, month); }
    if month < found { MonthsInOrder(month + 1, found); }
  }

  /** `MakeDay`: the first of a month, moved by days. */
  function MakeDay(month: int, date: int): int { MonthStart(month) + date - 1 }

  lemma MakeDayIsThere(month: int, date: int)
    requires 1 <= date <= MonthLength(month)
    ensures MonthOf(MakeDay(month, date)) == month && DateOf(MakeDay(month, date)) == date
  {
    MonthIsUnique(MakeDay(month, date), month);
  }

  function MakeInstant(day: int, timeInDay: int): int { day * MS_PER_DAY + timeInDay }

  lemma InstantParts(day: int, timeInDay: int)
    requires 0 <= timeInDay < MS_PER_DAY
    ensures DayOf(MakeInstant(day, timeInDay)) == day && TimeInDay(MakeInstant(day, timeInDay)) == timeInDay
  {
  }

  lemma PartsMakeInstant(t: int)
    ensures 0 <= TimeInDay(t) < MS_PER_DAY && MakeInstant(DayOf(t), TimeInDay(t)) == t
  {
  }

  /** An instant built from its parts has those parts. */
  lemma InstantIsThere(month: int, date: int, timeInDay: int)
    requires 1 <= date <= MonthLength(month) && 0 <= timeInDay < MS_PER_DAY
    ensures var t := MakeInstant(MakeDay(month, date), timeInDay);
            MonthOf(DayOf(t)) == month && DateOf(DayOf(t)) == date && TimeInDay(t) == timeInDay
  {
    MakeDayIsThere(month, date);
    InstantParts(MakeDay(month, date), timeInDay);
    hide MonthOf, DateOf, MonthStart, MakeDay, MakeInstant, DayOf, TimeInDay;
  }

  /** The count of days starts with 1970. */
  lemma TheEpoch()
    ensures MonthOf(0) == 12 * 1970 && DateOf(0) == 1
  {
    hide MonthStart, MonthOf, DateOf;
    JanuaryOf1970();
    MonthIsUnique(0, 12 * 1970);
  }

  lemma JanuaryOf1970()
    ensures MonthStart(12 * 1970) == 0 && MonthStart(12 * 1970 + 1) == 31
  {
    NewYear1970();
    hide DayFromYear, IsLeap;
    assert 12 * 1970 / 12 == 1970 && 12 * 1970 % 12 == 0;
    assert (12 * 1970 + 1) / 12 == 1970 && (12 * 1970 + 1) % 12 == 1;
  }

  lemma NewYear1970()
    ensures DayFromYear(1970) == 0
  {
  }

  /** Every four centuries take the same 146 097 days. */
  lemma FourCenturies(y: int)
    ensures DayFromYear(y + 400) == DayFromYear(y) + 146_097
  {
    assert (y + 400 - 1969) / 4 == (y - 1969) / 4 + 100;
    assert (y + 400 - 1901) / 100 == (y - 1901) / 100 + 4;
    assert (y + 400 - 1601) / 400 == (y - 1601) / 400 + 1;
  }
}
