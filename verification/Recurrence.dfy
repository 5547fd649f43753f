/** Billing-period arithmetic: whole days, or whole months with the day of the month clamped. */
module Recurrence {
  import opened Calendar

  datatype Interval = Daily | Weekly | Monthly | Biannually | Annually

  function DaysPer(interval: Interval): nat {
    match interval
    case Daily => 1
    case Weekly => 7
    case _ => 0
  }

  function MonthsPer(interval: Interval): nat {
    match interval
    case Monthly => 1
    case Biannually => 6
    case Annually => 12
    case _ => 0
  }

  predicate InDays(interval: Interval) { interval.Daily? || interval.Weekly? }

  function Multiplier(count: int): int { if count > 0 then count else 1 }

  function Min(a: int, b: int): int { if a < b then a else b }

  /** A mutable `Date`, with the two setters the arithmetic uses. */
  class UtcDate {
    var time: int

    constructor (time: int)
      ensures this.time == time
    {
      this.time := time;
    }

    method SetUTCDate(date: int)
      modifies this
      ensures time == MakeInstant(MakeDay(MonthOf(DayOf(old(time))), date), TimeInDay(old(time)))
    {
      time := MakeInstant(MakeDay(MonthOf(DayOf(time)), date), TimeInDay(time));
    }

    /** `month` counts through the years, so it may lie outside the current one. */
    method SetUTCMonth(month: int)
      modifies this
      ensures time == MakeInstant(MakeDay(month, DateOf(DayOf(old(time)))), TimeInDay(old(time)))
    {
      time := MakeInstant(MakeDay(month, DateOf(DayOf(time))), TimeInDay(time));
    }
  }

  /** The instant the same distance into the day, on the clamped day of a later month. */
  function MonthsLater(from: int, months: int): int {
    var month := MonthOf(DayOf(from)) + months;
    MakeInstant(MakeDay(month, Min(DateOf(DayOf(from)), MonthLength(month))), TimeInDay(from))
  }

  function PeriodDays(interval: Interval, count: int): int { DaysPer(interval) * Multiplier(count) }

  function PeriodMonths(interval: Interval, count: int): int { MonthsPer(interval) * Multiplier(count) }

  function Next(from: int, interval: Interval, count: int): int {
    if InDays(interval) then from + PeriodDays(interval, count) * MS_PER_DAY
    else MonthsLater(from, PeriodMonths(interval, count))
  }

  lemma MonthsLaterParts(from: int, months: int)
    ensures var day := DayOf(MonthsLater(from, months));
            var month := MonthOf(DayOf(from)) + months;
            && MonthOf(day) == month
            && DateOf(day) == Min(DateOf(DayOf(from)), MonthLength(month))
            && TimeInDay(MonthsLater(from, months)) == TimeInDay(from)
  {
    hide MonthOf, DateOf, MonthLength, MonthStart, MakeDay, MakeInstant, DayOf;
    var month := MonthOf(DayOf(from)) + months;
    var date := Min(DateOf(DayOf(from)), MonthLength(month));
    MonthLengthBounds(month);
    InstantIsThere(month, date, TimeInDay(from));
  }

  method AddDays(from: int, days: int) returns (next: int)
    ensures next == from + days * MS_PER_DAY
  {
    SettingTheDateAddsDays(from, days);
    hide MonthOf, DateOf, MakeDay, MakeInstant, DayOf, TimeInDay;
    var date := new UtcDate(from);
    date.SetUTCDate(DateOf(DayOf(date.time)) + days);
    next := date.time;
  }

  method AddMonths(from: int, months: int) returns (next: int)
    ensures next == MonthsLater(from, months)
  {
    hide MonthOf, DateOf, MonthLength, MonthStart, MakeDay, MakeInstant, DayOf, TimeInDay, Min;
    FirstOfTheMonth(from, months);
    var day := DateOf(DayOf(from));
    var date := new UtcDate(from);
    // The first of the target month before the day is restored, so nothing overflows into the next.
    date.SetUTCDate(1);
    date.SetUTCMonth(MonthOf(DayOf(date.time)) + months);
    date.SetUTCDate(Min(day, MonthLength(MonthOf(DayOf(date.time)))));
    next := date.time;
  }

  method AddInterval(from: int, interval: Interval, count: int) returns (next: int)
    ensures next == Next(from, interval, count)
  {
    var multiplier := if count > 0 then count else 1;
    if InDays(interval) {
      next := AddDays(from, DaysPer(interval) * multiplier);
    } else {
      hide MonthsLater;
      next := AddMonths(from, MonthsPer(interval) * multiplier);
    }
  }

  lemma SettingTheDateAddsDays(from: int, days: int)
    ensures MakeInstant(MakeDay(MonthOf(DayOf(from)), DateOf(DayOf(from)) + days), TimeInDay(from))
            == from + days * MS_PER_DAY
  {
    PartsMakeInstant(from);
    hide MonthOf, MonthStart;
  }

  lemma FirstOfTheMonth(from: int, months: int)
    ensures var first := MakeInstant(MakeDay(MonthOf(DayOf(from)), 1), TimeInDay(from));
            && MonthOf(DayOf(first)) == MonthOf(DayOf(from)) && DateOf(DayOf(first)) == 1
            && TimeInDay(first) == TimeInDay(from)
            && (var target := MakeInstant(MakeDay(MonthOf(DayOf(from)) + months, 1), TimeInDay(from));
                MonthOf(DayOf(target)) == MonthOf(DayOf(from)) + months && TimeInDay(target) == TimeInDay(from))
  {
    hide MonthOf, DateOf, MonthLength, MonthStart, MakeDay, MakeInstant, DayOf;
    var month := MonthOf(DayOf(from));
    MonthLengthBounds(month);
    MonthLengthBounds(month + months);
    InstantIsThere(month, 1, TimeInDay(from));
    InstantIsThere(month + months, 1, TimeInDay(from));
  }

  /* ---------------------------- many periods ---------------------------- */

  function Iterate(from: int, interval: Interval, count: int, k: nat): int {
    if k == 0 then from else Next(Iterate(from, interval, count, k - 1), interval, count)
  }

  /** The shortest of the months landed on, but never later than the start day. */
  function Clamped(date: int, month: int, step: int, k: nat): int {
    if k == 0 then date else Min(Clamped(date, month, step, k - 1), MonthLength(month + k * step))
  }

  lemma OneStepMore(k: int, step: int)
    ensures (k - 1) * step + step == k * step
  {
  }

  /** Where `k` months-based periods land: that many months on, clamped by every month on the way. */
  lemma {:induction false} IteratedMonths(from: int, interval: Interval, count: int, k: nat)
    requires !InDays(interval)
    ensures var step := PeriodMonths(interval, count);
            var month, date := MonthOf(DayOf(from)), DateOf(DayOf(from));
            var landed := Iterate(from, interval, count, k);
            && MonthOf(DayOf(landed)) == month + k * step
            && DateOf(DayOf(landed)) == Clamped(date, month, step, k)
            && TimeInDay(landed) == TimeInDay(from)
  {
    hide MonthOf, DateOf, MonthLength, MonthStart, MonthsLater, DayOf, TimeInDay, PeriodMonths;
    if k > 0 {
      var step := PeriodMonths(interval, count);
      IteratedMonths(from, interval, count, k - 1);
      MonthsLaterParts(Iterate(from, interval, count, k - 1), step);
      OneStepMore(k, step);
    }
  }

  /** The day landed on is the least of the start day and of the lengths of all the months landed on. */
  lemma {:induction false} ClampedIsTheLeast(date: int, month: int, step: int, k: nat)
    ensures Clamped(date, month, step, k) <= date
    ensures forall j: nat :: 1 <= j <= k ==> Clamped(date, month, step, k) <= MonthLength(month + j * step)
    ensures Clamped(date, month, step, k) == date
            || exists j: nat :: 1 <= j <= k && Clamped(date, month, step, k) == MonthLength(month + j * step)
  {
    hide MonthLength;
    if k > 0 { ClampedIsTheLeast(date, month, step, k - 1); }
  }

  lemma {:induction false} IteratedDays(from: int, interval: Interval, count: int, k: nat)
    requires InDays(interval)
    ensures Iterate(from, interval, count, k) == from + k * (PeriodDays(interval, count) * MS_PER_DAY)
  {
    hide PeriodDays;
    if k > 0 {
      IteratedDays(from, interval, count, k - 1);
      OneStepMore(k, PeriodDays(interval, count) * MS_PER_DAY);
    }
  }

  lemma StepIsPositive(interval: Interval, count: int)
    ensures InDays(interval) ==> PeriodDays(interval, count) >= 1
    ensures !InDays(interval) ==> PeriodMonths(interval, count) >= 1
  {
  }

  /** Every period ends strictly after it starts. */
  lemma NextIsLater(from: int, interval: Interval, count: int)
    ensures Next(from, interval, count) > from
  {
    StepIsPositive(interval, count);
    hide PeriodDays, PeriodMonths, MonthsLater;
    if !InDays(interval) {
      var months := PeriodMonths(interval, count);
      MonthsLaterParts(from, months);
      LaterMonthIsLater(from, MonthsLater(from, months));
    }
  }

  lemma LaterMonthIsLater(a: int, b: int)
    requires MonthOf(DayOf(a)) < MonthOf(DayOf(b))
    ensures a < b
  {
    MonthsInOrder(MonthOf(DayOf(a)) + 1, MonthOf(DayOf(b)));
    hide MonthOf, MonthStart;
    PartsMakeInstant(a);
    PartsMakeInstant(b);
  }

  /** From a day that every month has, steps compose additively. */
  lemma StepsCompose(from: int, a: int, b: int)
    requires DateOf(DayOf(from)) <= 28
    ensures MonthsLater(MonthsLater(from, a), b) == MonthsLater(from, a + b)
    ensures DateOf(DayOf(MonthsLater(from, a))) == DateOf(DayOf(from))
  {
    hide MonthOf, DateOf, MonthLength, MonthStart, MonthsLater, MakeDay, MakeInstant, DayOf, TimeInDay;
    NeverClamped(from, a);
    NeverClamped(MonthsLater(from, a), b);
    NeverClamped(from, a + b);
    var month := MonthOf(DayOf(from));
    assert month + a + b == month + (a + b);
  }

  lemma NeverClamped(from: int, months: int)
    requires DateOf(DayOf(from)) <= 28
    ensures var later, month := MonthsLater(from, months), MonthOf(DayOf(from)) + months;
            && later == MakeInstant(MakeDay(month, DateOf(DayOf(from))), TimeInDay(from))
            && MonthOf(DayOf(later)) == month && DateOf(DayOf(later)) == DateOf(DayOf(from))
            && TimeInDay(later) == TimeInDay(from)
  {
    hide MonthOf, DateOf, MonthLength, MonthStart, MakeDay, MakeInstant, DayOf, TimeInDay;
    MonthsLaterParts(from, months);
    MonthLengthBounds(MonthOf(DayOf(from)) + months);
  }

  lemma ShortAfterJanuary(month: int)
    requires month % 12 == 0
    ensures MonthLength(month + 1) <= 29 && MonthLength(month + 2) >= 30
  {
    hide MonthLength, MonthStart, IsLeap;
    assert (month + 1) % 12 == 1 && (month + 2) % 12 == 2;
    MonthLengthBounds(month + 1);
    MonthLengthBounds(month + 2);
  }

  /** From the 31st they do not: two months on is not one month on, twice. */
  lemma ClampingIsSticky(from: int)
    requires DateOf(DayOf(from)) == 31 && MonthOf(DayOf(from)) % 12 == 0
    ensures DateOf(DayOf(MonthsLater(MonthsLater(from, 1), 1))) < DateOf(DayOf(MonthsLater(from, 2)))
  {
    hide MonthOf, DateOf, MonthLength, MonthsLater, DayOf, TimeInDay, IsLeap;
    var month := MonthOf(DayOf(from));
    ShortAfterJanuary(month);
    MonthsLaterParts(from, 1);
    MonthsLaterParts(MonthsLater(from, 1), 1);
    MonthsLaterParts(from, 2);
  }

  /* ---------------------------- the periods against each other ---------------------------- */

  /** A count that is not positive reads as one. */
  predicate Reads(count: int, k: int) { k >= 1 && (count >= 1 ==> k == count) && (count <= 0 ==> k == 1) }

  /** A day is twenty-four hours and a week seven of them, so a weekly period keeps the weekday and the time of day. */
  lemma DaysAndWeeks(from: int, count: int, k: int)
    requires Reads(count, k)
    ensures Next(from, Daily, count) == from + 86_400_000 * k
    ensures Next(from, Weekly, count) == from + 604_800_000 * k
    ensures DayOf(Next(from, Weekly, count)) % 7 == DayOf(from) % 7
    ensures TimeInDay(Next(from, Daily, count)) == TimeInDay(Next(from, Weekly, count)) == TimeInDay(from)
  {
    DaysLater(from, k);
    DaysLater(from, 7 * k);
    assert Next(from, Daily, count) == from + k * MS_PER_DAY;
    assert Next(from, Weekly, count) == from + (7 * k) * MS_PER_DAY;
  }

  lemma DaysLater(from: int, days: int)
    ensures DayOf(from + days * MS_PER_DAY) == DayOf(from) + days && TimeInDay(from + days * MS_PER_DAY) == TimeInDay(from)
  {
  }

  /** Seven daily periods are one weekly one. */
  lemma SevenDaysAreAWeek(from: int, count: int)
    ensures Iterate(from, Daily, count, 7) == Next(from, Weekly, count)
  {
    IteratedDays(from, Daily, count, 7);
    hide Iterate;
    var k := if count > 0 then count else 1;
    DaysAndWeeks(from, count, k);
    assert PeriodDays(Daily, count) == k;
  }

  /** A months-based period lands that many calendar months on, on the same day or the last that month has. */
  lemma MonthsOn(from: int, count: int, k: int)
    requires Reads(count, k)
    ensures Lands(from, Next(from, Monthly, count), k)
    ensures Lands(from, Next(from, Biannually, count), 6 * k)
    ensures Lands(from, Next(from, Annually, count), 12 * k)
  {
    hide MonthsLater, Lands, PeriodMonths;
    LandsLater(from, k);
    LandsLater(from, 6 * k);
    LandsLater(from, 12 * k);
    MonthsApart(count, k);
    assert Next(from, Monthly, count) == MonthsLater(from, k);
    assert Next(from, Biannually, count) == MonthsLater(from, 6 * k);
    assert Next(from, Annually, count) == MonthsLater(from, 12 * k);
  }

  lemma LandsLater(from: int, months: int)
    ensures Lands(from, MonthsLater(from, months), months)
  {
    hide MonthsLater, MonthOf, DateOf, MonthLength, DayOf, TimeInDay;
    MonthsLaterParts(from, months);
  }

  lemma MonthsApart(count: int, k: int)
    requires Reads(count, k)
    ensures PeriodMonths(Monthly, count) == k
    ensures PeriodMonths(Biannually, count) == 6 * k
    ensures PeriodMonths(Annually, count) == 12 * k
  {
  }

  /** The second instant is some months on from the first, on its day of the month or on the last before it. */
  predicate Lands(from: int, to: int, months: int) {
    var start, end := DayOf(from), DayOf(to);
    && MonthOf(end) == MonthOf(start) + months
    && DateOf(end) <= DateOf(start)
    && (DateOf(end) < DateOf(start) ==> DateOf(end) == MonthLength(MonthOf(end)))
    && TimeInDay(to) == TimeInDay(from)
  }

  /** The same month of another year, on the same date but for a leap day that the other year does not have. */
  predicate YearsApart(month: int, date: int, laterMonth: int, laterDate: int, years: int) {
    && laterMonth / 12 == month / 12 + years && laterMonth % 12 == month % 12
    && laterDate == if month % 12 == 1 && date == 29 && !IsLeap(month / 12 + years) then 28 else date
  }

  /** A year later is the same date, but that the 29th of February falls back to the 28th of a common year. */
  lemma YearsOn(from: int, count: int, k: int)
    requires Reads(count, k)
    ensures var start, end := DayOf(from), DayOf(Next(from, Annually, count));
            YearsApart(MonthOf(start), DateOf(start), MonthOf(end), DateOf(end), k)
  {
    hide MonthOf, DateOf, MonthLength, DayOf, TimeInDay, Next, YearsApart, MonthStart, Reads;
    MonthsOn(from, count, k);
    var start, end := DayOf(from), DayOf(Next(from, Annually, count));
    SameDateOfAnotherYear(MonthOf(start), DateOf(start), k, DateOf(end));
  }

  lemma SameDateOfAnotherYear(month: int, date: int, years: int, later: int)
    requires date <= MonthLength(month) && later <= MonthLength(month + 12 * years)
    requires later <= date && (later < date ==> later == MonthLength(month + 12 * years))
    ensures YearsApart(month, date, month + 12 * years, later, years)
  {
    hide MonthLength, IsLeap;
    SameMonthSameLength(month, years);
    MonthLengths(month);
    MonthLengths(month + 12 * years);
  }

  /** Two instants in one month at one time of day are one exactly when they are on one day. */
  lemma SameLanding(a: int, b: int)
    requires MonthOf(DayOf(a)) == MonthOf(DayOf(b)) && TimeInDay(a) == TimeInDay(b)
    ensures a == b <==> DateOf(DayOf(a)) == DateOf(DayOf(b))
  {
    PartsMakeInstant(a);
    PartsMakeInstant(b);
    hide MonthOf, MonthStart, MonthLength, DayOf, TimeInDay, MakeInstant;
  }

  /** Six monthly periods are a biannual one exactly when no month between is too short for the day it lands on. */
  lemma SixMonthsAreHalfAYear(from: int, count: int, k: int)
    requires Reads(count, k)
    ensures var month, landed := MonthOf(DayOf(from)), Next(from, Biannually, count);
            Iterate(from, Monthly, count, 6) == landed
            <==> forall j :: 1 <= j < 6 ==> DateOf(DayOf(landed)) <= MonthLength(month + j * k)
  {
    hide MonthOf, DateOf, MonthLength, DayOf, TimeInDay, Next, Iterate, Lands, PeriodMonths;
    MonthsOn(from, count, k);
    MonthsApart(count, k);
    StepsMakeOne(from, Monthly, count, k, 6, Next(from, Biannually, count));
  }

  /** Two biannual periods are an annual one, under the same condition. */
  lemma TwoHalvesAreAYear(from: int, count: int, k: int)
    requires Reads(count, k)
    ensures var month, landed := MonthOf(DayOf(from)), Next(from, Annually, count);
            Iterate(from, Biannually, count, 2) == landed <==> DateOf(DayOf(landed)) <= MonthLength(month + 6 * k)
  {
    hide MonthOf, DateOf, MonthLength, DayOf, TimeInDay, Next, Iterate, Lands, PeriodMonths;
    MonthsOn(from, count, k);
    MonthsApart(count, k);
    StepsMakeOne(from, Biannually, count, 6 * k, 2, Next(from, Annually, count));
    var month, landed := MonthOf(DayOf(from)), Next(from, Annually, count);
    if DateOf(DayOf(landed)) <= MonthLength(month + 6 * k) {
      assert forall j :: 1 <= j < 2 ==> DateOf(DayOf(landed)) <= MonthLength(month + j * (6 * k));
    } else {
      assert month + 1 * (6 * k) == month + 6 * k;
    }
  }

  /** So from a day up to the 28th the periods divide each other whatever the months. */
  lemma UpToThe28thPeriodsDivide(from: int, count: int)
    requires DateOf(DayOf(from)) <= 28
    ensures Iterate(from, Monthly, count, 6) == Next(from, Biannually, count)
    ensures Iterate(from, Biannually, count, 2) == Next(from, Annually, count)
  {
    hide MonthOf, DateOf, MonthLength, DayOf, TimeInDay, Next, Iterate, MonthStart;
    var k := if count >= 1 then count else 1;
    SixMonthsAreHalfAYear(from, count, k);
    TwoHalvesAreAYear(from, count, k);
    NoLaterDay(from, count, k);
    MonthsAreLongEnough(MonthOf(DayOf(from)), k, DateOf(DayOf(Next(from, Biannually, count))));
    MonthLengthBounds(MonthOf(DayOf(from)) + 6 * k);
  }

  lemma MonthsAreLongEnough(month: int, step: int, date: int)
    requires date <= 28
    ensures forall j :: 1 <= j < 6 ==> date <= MonthLength(month + j * step)
  {
    hide MonthLength;
    forall j | 1 <= j < 6 ensures date <= MonthLength(month + j * step) { MonthLengthBounds(month + j * step); }
  }

  lemma NoLaterDay(from: int, count: int, k: int)
    requires Reads(count, k)
    ensures DateOf(DayOf(Next(from, Biannually, count))) <= DateOf(DayOf(from))
    ensures DateOf(DayOf(Next(from, Annually, count))) <= DateOf(DayOf(from))
  {
    hide MonthOf, DateOf, MonthLength, DayOf, TimeInDay, Next;
    MonthsOn(from, count, k);
  }

  /** Many steps or one: the same instant exactly when the day survives the months between. */
  lemma StepsMakeOne(from: int, interval: Interval, count: int, step: int, n: nat, landed: int)
    requires !InDays(interval) && n >= 1 && PeriodMonths(interval, count) == step && Lands(from, landed, n * step)
    ensures Iterate(from, interval, count, n) == landed
            <==> forall j :: 1 <= j < n ==> DateOf(DayOf(landed)) <= MonthLength(MonthOf(DayOf(from)) + j * step)
  {
    hide MonthOf, MonthLength, DayOf, TimeInDay, Iterate, PeriodMonths, DateOf, Clamped, Lands, MonthStart;
    IteratedMonths(from, interval, count, n);
    LandedParts(from, landed, n * step);
    LeastExactlyWhen(DateOf(DayOf(from)), MonthOf(DayOf(from)), step, n, DateOf(DayOf(landed)));
    SameLanding(Iterate(from, interval, count, n), landed);
  }

  lemma LandedParts(from: int, to: int, months: int)
    requires Lands(from, to, months)
    ensures var month, date, later := MonthOf(DayOf(from)), DateOf(DayOf(from)), DateOf(DayOf(to));
            && MonthOf(DayOf(to)) == month + months && TimeInDay(to) == TimeInDay(from)
            && later <= date && later <= MonthLength(month + months)
            && (later < date ==> later == MonthLength(month + months))
  {
    hide MonthOf, MonthLength, DayOf, TimeInDay, DateOf, MonthStart;
  }

  lemma LeastExactlyWhen(date: int, month: int, step: int, n: nat, landed: int)
    requires n >= 1 && landed <= date && landed <= MonthLength(month + n * step)
    requires landed < date ==> landed == MonthLength(month + n * step)
    ensures Clamped(date, month, step, n) == landed <==> forall j :: 1 <= j < n ==> landed <= MonthLength(month + j * step)
  {
    hide MonthLength, Clamped;
    ClampedIsTheLeast(date, month, step, n);
    var clamped := Clamped(date, month, step, n);
    assert clamped <= MonthLength(month + n * step);
    if forall j :: 1 <= j < n ==> landed <= MonthLength(month + j * step) {
      assert landed <= clamped;
    }
  }

  const PERIOD_CAP := 10_000

  /** How many periods start before `end`: the least count that reaches it, up to the cap. */
  method PeriodsBetween(from: int, end: int, interval: Interval, intervalCount: int) returns (count: nat)
    ensures count <= 10_000
    ensures forall j: nat :: j < count ==> Iterate(from, interval, intervalCount, j) < end
    ensures count < 10_000 ==> Iterate(from, interval, intervalCount, count) >= end
  {
    hide Next;
    count := 0;
    var cursor := from;
    while cursor < end && count < PERIOD_CAP
      invariant count <= PERIOD_CAP
      invariant cursor == Iterate(from, interval, intervalCount, count)
      invariant forall j: nat :: j < count ==> Iterate(from, interval, intervalCount, j) < end
      decreases PERIOD_CAP - count
    {
      cursor := AddInterval(cursor, interval, intervalCount);
      count := count + 1;
    }
  }

  lemma {:induction false} IteratesIncrease(from: int, interval: Interval, count: int, j: nat, k: nat)
    requires j < k
    ensures Iterate(from, interval, count, j) < Iterate(from, interval, count, k)
  {
    hide Next;
    NextIsLater(Iterate(from, interval, count, k - 1), interval, count);
    if j < k - 1 { IteratesIncrease(from, interval, count, j, k - 1); }
  }
}
