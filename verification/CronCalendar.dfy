/** Schedules against the Gregorian calendar in UTC (runtime/cron.go): from 2000 to
2095, every schedule with a real date fires within the search horizon. */
module CronCalendar {
  import opened Options
  import opened CronFields
  import opened CronNext

  // ----- the calendar; day 0 is Saturday, 1 January 2000 -----

  datatype Date = Date(year: int, month: int, day: int)

  predicate Leap(year: int) {
    year % 4 == 0 && (year % 100 != 0 || year % 400 == 0)
  }

  function DaysInYear(year: int): nat {
    if Leap(year) then 366 else 365
  }

  function DaysIn(leap: bool, month: int): nat {
    if month == 2 then if leap then 29 else 28
    else if month == 4 || month == 6 || month == 9 || month == 11 then 30
    else 31
  }

  /** The lengths of a year's months. */
  function Months(leap: bool): int -> nat {
    month => DaysIn(leap, month)
  }

  /** The days from 1 January 2000 to 1 January of a later year. */
  function YearStart(year: int): nat
    requires year >= 2000
    decreases year
  {
    if year == 2000 then 0 else YearStart(year - 1) + DaysInYear(year - 1)
  }

  /** The days of a year before a month. */
  function MonthStart(length: int -> nat, month: int): nat
    requires 1 <= month <= 13
    decreases month
  {
    if month == 1 then 0 else MonthStart(length, month - 1) + length(month - 1)
  }

  /** The year and day of year that a day count from the start of `year` falls on. */
  function YearOf(year: int, days: nat): (int, nat)
    decreases days
  {
    if days < DaysInYear(year) then (year, days) else YearOf(year + 1, days - DaysInYear(year))
  }

  function MonthOf(length: int -> nat, month: int, days: nat): (int, int)
    requires 1 <= month <= 12
    decreases 12 - month
  {
    if days < length(month) || month == 12 then (month, days + 1) else MonthOf(length, month + 1, days - length(month))
  }

  function DateOf(day: nat): Date {
    var (year, days) := YearOf(2000, day);
    var (month, dom) := MonthOf(Months(Leap(year)), 1, days);
    Date(year, month, dom)
  }

  /** Sunday is 0. */
  function Weekday(day: nat): int {
    (day + 6) % 7
  }

  function DayNumber(date: Date): nat
    requires date.year >= 2000 && 1 <= date.month <= 12 && date.day >= 1
  {
    YearStart(date.year) + MonthStart(Months(Leap(date.year)), date.month) + date.day - 1
  }

  predicate Real(date: Date) {
    date.year >= 2000 && 1 <= date.month <= 12 && 1 <= date.day <= DaysIn(Leap(date.year), date.month)
  }

  lemma {:induction false} YearOfStart(from: int, year: int, days: nat)
    requires 2000 <= from <= year && days < DaysInYear(year)
    ensures YearStart(year) >= YearStart(from)
    ensures YearOf(from, YearStart(year) - YearStart(from) + days) == (year, days)
    decreases year - from
  {
    if from < year {
      YearOfStart(from + 1, year, days);
    }
  }

  lemma {:induction false} MonthOfStart(length: int -> nat, from: int, month: int, day: int)
    requires 1 <= from <= month <= 12 && 1 <= day <= length(month)
    ensures MonthStart(length, month) >= MonthStart(length, from)
    ensures MonthOf(length, from, MonthStart(length, month) - MonthStart(length, from) + day - 1) == (month, day)
    decreases month - from
  {
    if from < month {
      MonthOfStart(length, from + 1, month, day);
    }
  }

  lemma YearLength(leap: bool)
    ensures MonthStart(Months(leap), 13) == if leap then 366 else 365
  {
    var length := Months(leap);
    assert MonthStart(length, 3) == 31 + length(2);
    assert MonthStart(length, 5) == MonthStart(length, 3) + 31 + 30;
    assert MonthStart(length, 7) == MonthStart(length, 5) + 31 + 30;
    assert MonthStart(length, 9) == MonthStart(length, 7) + 31 + 31;
    assert MonthStart(length, 11) == MonthStart(length, 9) + 30 + 31;
  }

  lemma {:induction false} MonthStartGrows(length: int -> nat, month: int, later: int)
    requires 1 <= month <= later <= 13
    ensures MonthStart(length, month) <= MonthStart(length, later)
    decreases later - month
  {
    if month < later {
      MonthStartGrows(length, month, later - 1);
    }
  }

  lemma DayOfYear(leap: bool, month: int, day: int)
    requires 1 <= month <= 12 && 1 <= day <= DaysIn(leap, month)
    ensures MonthStart(Months(leap), month) + day - 1 < if leap then 366 else 365
    ensures MonthOf(Months(leap), 1, MonthStart(Months(leap), month) + day - 1) == (month, day)
  {
    MonthStartGrows(Months(leap), month + 1, 13);
    YearLength(leap);
    MonthOfStart(Months(leap), 1, month, day);
  }

  /** Dates and day numbers are one-to-one. */
  lemma DateOfDayNumber(date: Date)
    requires Real(date)
    ensures DateOf(DayNumber(date)) == date
    ensures DayNumber(date) < YearStart(date.year) + DaysInYear(date.year)
  {
    DayOfYear(Leap(date.year), date.month, date.day);
    YearOfStart(2000, date.year, MonthStart(Months(Leap(date.year)), date.month) + date.day - 1);
  }

  lemma {:induction false} YearOfBounds(from: int, days: nat)
    requires from >= 2000
    ensures var (year, rest) := YearOf(from, days);
            year >= from && rest < DaysInYear(year) && YearStart(from) + days == YearStart(year) + rest
    decreases days
  {
    if days >= DaysInYear(from) {
      YearOfBounds(from + 1, days - DaysInYear(from));
    }
  }

  lemma {:induction false} MonthOfBounds(length: int -> nat, from: int, days: nat)
    requires 1 <= from <= 12 && MonthStart(length, from) + days < MonthStart(length, 13)
    ensures var (month, day) := MonthOf(length, from, days);
            from <= month <= 12 && 1 <= day <= length(month)
    decreases 12 - from
  {
    if days >= length(from) && from < 12 {
      MonthOfBounds(length, from + 1, days - length(from));
    }
  }

  lemma DateOfIsReal(day: nat)
    ensures Real(DateOf(day))
    ensures YearStart(DateOf(day).year) <= day < YearStart(DateOf(day).year + 1)
  {
    YearOfBounds(2000, day);
    var (year, days) := YearOf(2000, day);
    YearLength(Leap(year));
    MonthOfBounds(Months(Leap(year)), 1, days);
  }

  lemma {:induction false} YearsApart(year: int, later: int)
    requires 2000 <= year <= later
    ensures YearStart(later) - YearStart(year) <= 366 * (later - year)
    decreases later - year
  {
    if year < later {
      YearsApart(year, later - 1);
    }
  }

  // ----- schedules -----

  datatype Plan = Plan(minute: Field, hour: Field, dom: Field, month: Field, dow: Field)

  predicate Ranged(field: Field, min: int, max: int) {
    field.min == min && field.max == max && Sized(field) && NonEmpty(field)
  }

  /** What parseCronSchedule accepts. */
  predicate ValidPlan(p: Plan) {
    && Ranged(p.minute, 0, 59) && Ranged(p.hour, 0, 23) && Ranged(p.dom, 1, 31)
    && Ranged(p.month, 1, 12) && Ranged(p.dow, 0, 7)
  }

  predicate DowHas(p: Plan, weekday: int)
    requires ValidPlan(p)
  {
    Has(p.dow, weekday) || (weekday == 0 && Has(p.dow, 7))
  }

  predicate DayMatches(p: Plan, dom: int, weekday: int)
    requires ValidPlan(p)
  {
    if p.dom.any && p.dow.any then true
    else if p.dom.any then DowHas(p, weekday)
    else if p.dow.any then Has(p.dom, dom)
    else Has(p.dom, dom) || DowHas(p, weekday)
  }

  const MINUTES_A_DAY := 1440

  /** The minute of 1 January 2000, counted from the epoch. */
  const START_OF_2000 := 10957 * MINUTES_A_DAY

  function DayOf(minute: int): nat
    requires minute >= START_OF_2000
  {
    (minute - START_OF_2000) / MINUTES_A_DAY
  }

  /** parsedCronPlan.matches in UTC, for a minute since the epoch from 2000 on. */
  predicate MatchesAt(p: Plan, minute: int)
    requires ValidPlan(p)
  {
    && minute >= START_OF_2000
    && Has(p.minute, minute % 60) && Has(p.hour, (minute / 60) % 24)
    && var date := DateOf(DayOf(minute));
       Has(p.month, date.month) && DayMatches(p, date.day, Weekday(DayOf(minute)))
  }

  function Matcher(p: Plan): int -> bool
    requires ValidPlan(p)
  {
    minute => MatchesAt(p, minute)
  }

  // ----- what a match means -----

  /** 1 January 2000 was a Saturday, and the weekdays follow one another. */
  lemma WeekdayFollows(day: nat)
    ensures DateOf(0) == Date(2000, 1, 1) && Weekday(0) == 6
    ensures 0 <= Weekday(day) <= 6 && Weekday(day + 1) == if Weekday(day) == 6 then 0 else Weekday(day) + 1
  {
    DateOfDayNumber(Date(2000, 1, 1));
  }

  /** The minute since the epoch at which a date's clock shows a time. */
  function MinuteAt(date: Date, hour: int, minute: int): int
    requires Real(date)
  {
    START_OF_2000 + DayNumber(date) * MINUTES_A_DAY + hour * 60 + minute
  }

  /** A schedule matches a time of a date exactly when it names the minute, the hour and
      the month, and a day field that is not bare names the day, if there is one. */
  lemma MatchesMeaning(p: Plan, date: Date, hour: int, minute: int)
    requires ValidPlan(p) && Real(date) && 0 <= hour < 24 && 0 <= minute < 60
    ensures MatchesAt(p, MinuteAt(date, hour, minute)) <==>
            && Has(p.minute, minute) && Has(p.hour, hour) && Has(p.month, date.month)
            && (|| (p.dom.any && p.dow.any)
                || (!p.dom.any && Has(p.dom, date.day))
                || (!p.dow.any && exists weekday :: 0 <= weekday <= 7 && weekday % 7 == Weekday(DayNumber(date)) && Has(p.dow, weekday)))
  {
    MinuteOf(DayNumber(date), hour, minute);
    DateOfDayNumber(date);
    var weekday := Weekday(DayNumber(date));
    WeekdayFollows(DayNumber(date));
    assert weekday % 7 == weekday && 7 % 7 == 0;
  }

  /** Every minute from 2000 on is a time of a date. */
  lemma MinutesAreTimes(minute: int)
    requires minute >= START_OF_2000
    ensures var date := DateOf(DayOf(minute));
            Real(date) && minute == MinuteAt(date, (minute / 60) % 24, minute % 60)
  {
    var day := DayOf(minute);
    DateOfIsReal(day);
    DayNumberOfDate(day);
    var rest := minute - START_OF_2000 - day * MINUTES_A_DAY;
    MinuteOf(day, rest / 60, rest % 60);
  }

  /** Day numbers and dates are one-to-one. */
  lemma DayNumberOfDate(day: nat)
    ensures Real(DateOf(day)) && DayNumber(DateOf(day)) == day
  {
    DateOfIsReal(day);
    YearOfBounds(2000, day);
    var (year, days) := YearOf(2000, day);
    MonthOfInverse(Months(Leap(year)), 1, days);
  }

  lemma {:induction false} MonthOfInverse(length: int -> nat, from: int, days: nat)
    requires 1 <= from <= 12
    ensures var (month, day) := MonthOf(length, from, days);
            from <= month <= 12 && MonthStart(length, from) + days == MonthStart(length, month) + day - 1
    decreases 12 - from
  {
    if days >= length(from) && from < 12 {
      MonthOfInverse(length, from + 1, days - length(from));
    }
  }

  function Bare(field: Field): Field {
    field.(any := true)
  }

  /** With both day fields restricted, either suffices: the schedule matches exactly where
      the one without the weekdays or the one without the days of the month does. */
  lemma EitherDaySuffices(p: Plan, minute: int)
    requires ValidPlan(p) && !p.dom.any && !p.dow.any
    ensures MatchesAt(p, minute) <==> MatchesAt(p.(dow := Bare(p.dow)), minute) || MatchesAt(p.(dom := Bare(p.dom)), minute)
  {
    if minute >= START_OF_2000 {
      MinutesAreTimes(minute);
      var date, hour, at := DateOf(DayOf(minute)), (minute / 60) % 24, minute % 60;
      MatchesMeaning(p, date, hour, at);
      MatchesMeaning(p.(dow := Bare(p.dow)), date, hour, at);
      MatchesMeaning(p.(dom := Bare(p.dom)), date, hour, at);
    }
  }

  /** The leap years up to a year, by the Gregorian rule. */
  function LeapsThrough(year: int): int {
    year / 4 - year / 100 + year / 400
  }

  /** From the epoch, 1 January 1970, to 2000. */
  lemma EpochIs()
    ensures START_OF_2000 == MINUTES_A_DAY * (365 * (2000 - 1970) + LeapsThrough(1999) - LeapsThrough(1969))
  {
  }

  /** Years start where the Gregorian calendar says. */
  lemma {:induction false} YearStartIs(year: int)
    requires year >= 2000
    ensures YearStart(year) == 365 * (year - 2000) + LeapsThrough(year - 1) - LeapsThrough(1999)
    decreases year
  {
    if year > 2000 {
      YearStartIs(year - 1);
      LeapsStep(year - 1);
    }
  }

  lemma LeapsStep(year: int)
    ensures LeapsThrough(year) == LeapsThrough(year - 1) + if Leap(year) then 1 else 0
  {
    Quotients(year, 4);
    Quotients(year, 100);
    Quotients(year, 400);
    assert year % 400 == 0 ==> year % 100 == 0;
    assert year % 100 == 0 ==> year % 4 == 0;
  }

  lemma Quotients(year: int, n: nat)
    requires n == 4 || n == 100 || n == 400
    ensures year / n == (year - 1) / n + if year % n == 0 then 1 else 0
  {
  }

  /** Some date of some year is one the schedule names. */
  ghost predicate HasRealDate(p: Plan)
    requires ValidPlan(p)
  {
    p.dom.any || !p.dow.any || exists month, day :: NamesDate(p, month, day)
  }

  predicate NamesDate(p: Plan, month: int, day: int)
    requires ValidPlan(p)
  {
    1 <= month <= 12 && 1 <= day <= DaysIn(true, month) && Has(p.month, month) && Has(p.dom, day)
  }

  lemma SomeValue(field: Field, min: int, max: int) returns (value: int)
    requires Ranged(field, min, max) && min <= max
    ensures min <= value <= max && Has(field, value)
  {
    if field.any {
      return min;
    }
    var j :| 0 <= j < |field.values| && field.values[j];
    return min + j;
  }

  /** The first seven days of a month fall on every weekday. */
  lemma WeekdayWithin(first: nat, weekday: int) returns (k: nat)
    requires 0 <= weekday <= 6
    ensures k < 7 && Weekday(first + k) == weekday
  {
    k := (weekday + 7 - Weekday(first)) % 7;
  }

  /** A leap year holds a day of every schedule with a real date. */
  lemma FiringDay(p: Plan, year: int) returns (date: Date)
    requires ValidPlan(p) && HasRealDate(p) && year >= 2000 && Leap(year)
    ensures Real(date) && date.year == year
    ensures Has(p.month, date.month) && DayMatches(p, date.day, Weekday(DayNumber(date)))
  {
    var month := SomeValue(p.month, 1, 12);
    if !p.dow.any {
      var value := SomeValue(p.dow, 0, 7);
      var k := WeekdayWithin(DayNumber(Date(year, month, 1)), if value == 7 then 0 else value);
      date := Date(year, month, 1 + k);
    } else if p.dom.any {
      date := Date(year, month, 1);
    } else {
      var m, d :| NamesDate(p, m, d);
      date := Date(year, m, d);
    }
  }

  lemma MinuteOf(day: nat, hour: int, minute: int)
    requires 0 <= hour < 24 && 0 <= minute < 60
    ensures var m := START_OF_2000 + day * MINUTES_A_DAY + hour * 60 + minute;
            m >= START_OF_2000 && m % 60 == minute && (m / 60) % 24 == hour && DayOf(m) == day
  {
    var m := START_OF_2000 + day * MINUTES_A_DAY + hour * 60 + minute;
    assert m == 60 * ((10957 + day) * 24 + hour) + minute;
    assert m / 60 == (10957 + day) * 24 + hour;
  }

  lemma NextLeap(year: int) returns (leap: int)
    requires 2000 <= year <= 2095
    ensures Leap(leap) && year < leap <= year + 4
  {
    leap := year + 4 - year % 4;
    assert leap % 4 == 0 && 2004 <= leap <= 2096;
  }

  /** From 2000 through 2095, a schedule with a real date matches within the horizon. */
  lemma FiresWithinHorizon(p: Plan, now: int) returns (minute: int)
    requires ValidPlan(p) && HasRealDate(p)
    requires now >= START_OF_2000 && DateOf(DayOf(now)).year <= 2095
    ensures now < minute <= now + HORIZON && MatchesAt(p, minute)
  {
    var today := DayOf(now);
    DateOfIsReal(today);
    var year := DateOf(today).year;
    var leap := NextLeap(year);
    var date := FiringDay(p, leap);
    DateOfDayNumber(date);
    HorizonReaches(today, year, leap, date);
    minute := FiringMinute(p, DayNumber(date));
  }

  lemma FiringMinute(p: Plan, day: nat) returns (minute: int)
    requires ValidPlan(p) && Has(p.month, DateOf(day).month) && DayMatches(p, DateOf(day).day, Weekday(day))
    ensures minute >= START_OF_2000 && DayOf(minute) == day && MatchesAt(p, minute)
  {
    var hour := SomeValue(p.hour, 0, 23);
    var at := SomeValue(p.minute, 0, 59);
    MinuteOf(day, hour, at);
    minute := START_OF_2000 + day * MINUTES_A_DAY + hour * 60 + at;
  }

  lemma HorizonReaches(today: nat, year: int, leap: int, date: Date)
    requires 2000 <= year < leap <= year + 4 && Real(date) && date.year == leap
    requires YearStart(year) <= today < YearStart(year + 1)
    ensures today < DayNumber(date) < today + 5 * 366
  {
    DateOfDayNumber(date);
    YearsApart(year, leap);
    YearsGrow(year + 1, leap);
  }

  lemma {:induction false} YearsGrow(year: int, later: int)
    requires 2000 <= year <= later
    ensures YearStart(year) <= YearStart(later)
    decreases later - year
  {
    if year < later {
      YearsGrow(year, later - 1);
    }
  }

  lemma MatchNamesDate(p: Plan, minute: int)
    requires ValidPlan(p) && MatchesAt(p, minute)
    ensures HasRealDate(p)
  {
    DateOfIsReal(DayOf(minute));
    var date := DateOf(DayOf(minute));
    assert !p.dom.any && p.dow.any ==> NamesDate(p, date.month, date.day);
  }

  /** From 2000 through 2095 in UTC, Next finds a time exactly for the schedules that
      name a real date, whichever the day: its horizon is long enough. */
  lemma NextFiresIff(p: Plan, after: int)
    requires ValidPlan(p)
    requires after / (60 * NANOS) >= START_OF_2000 && DateOf(DayOf(after / (60 * NANOS))).year <= 2095
    ensures var first := after / (60 * NANOS) + 1;
            FirstMatch(Matcher(p), first, first + HORIZON).Some? <==> HasRealDate(p)
  {
    var now := after / (60 * NANOS);
    FirstMatchIsLeast(Matcher(p), now + 1, now + 1 + HORIZON);
    if HasRealDate(p) {
      var minute := FiresWithinHorizon(p, now);
      assert Matcher(p)(minute);
    }
    if FirstMatch(Matcher(p), now + 1, now + 1 + HORIZON).Some? {
      MatchNamesDate(p, FirstMatch(Matcher(p), now + 1, now + 1 + HORIZON).value);
    }
  }
}
