/** Calendar arithmetic (src/time.rs): the closed-form Gregorian date of a day count, against the calendar
    of section 5.7 and Appendix C of RFC 3339 counted one day at a time. */
module Calendar {
  import opened Common
  import opened Arith

  datatype Date = Date(year: int, month: int, day: int)

  // ---------------------------------------------------------------- the calendar, day by day

  predicate IsLeap(year: int) {
    year % 4 == 0 && (year % 100 != 0 || year % 400 == 0)
  }

  function DaysIn(year: int, month: int): int {
    if month == 2 then (if IsLeap(year) then 29 else 28)
    else if month == 4 || month == 6 || month == 9 || month == 11 then 30
    else 31
  }

  predicate IsValid(date: Date) {
    1 <= date.month <= 12 && 1 <= date.day <= DaysIn(date.year, date.month)
  }

  function NextDay(date: Date): Date {
    if date.day < DaysIn(date.year, date.month) then date.(day := date.day + 1)
    else if date.month < 12 then Date(date.year, date.month + 1, 1)
    else Date(date.year + 1, 1, 1)
  }

  // ---------------------------------------------------------------- the closed form

  /** Howard Hinnant's algorithm, expression for expression; `/` and `%` are Euclidean where the program's
      are, and every other operand is non-negative. */
  function CivilFromDays(daysSinceEpoch: int): Date {
    var shifted := daysSinceEpoch + 719_468;
    var era := shifted / 146_097;
    var dayOfEra := shifted % 146_097;
    var yearOfEra := YearOfEra(dayOfEra);
    DateIn(yearOfEra + era * 400, dayOfEra - YearStart(yearOfEra))
  }

  function YearOfEra(dayOfEra: int): int {
    (dayOfEra - dayOfEra / 1_460 + dayOfEra / 36_524 - dayOfEra / 146_096) / 365
  }

  /** The date of a day counted from the first of March of `year`. */
  function DateIn(year: int, dayOfYear: int): Date {
    var monthPivot := (5 * dayOfYear + 2) / 153;
    var day := dayOfYear - (153 * monthPivot + 2) / 5 + 1;
    var month := if monthPivot < 10 then monthPivot + 3 else monthPivot - 9;
    Date(if month <= 2 then year + 1 else year, month, day)
  }

  // ---------------------------------------------------------------- years counted from March

  /** Days from the start of an era to the first of March of its `y`-th year. */
  function YearStart(y: int): int {
    365 * y + y / 4 - y / 100
  }

  /** The year that starts in March of year `y` ends in the February of year `y + 1`. */
  function YearLength(y: int): int {
    if IsLeap(y + 1) then 366 else 365
  }

  lemma YearStartSteps(y: int)
    requires 0 <= y < 400
    ensures (if y == 399 then 146_097 else YearStart(y + 1)) == YearStart(y) + YearLength(y)
  {
    QuotientSteps(y, 4);
    QuotientSteps(y, 100);
    QuotientSteps(y, 400);
  }

  /** The quotient formula finds the year a day of the era falls in. */
  lemma YearOfEraFinds(y: int, dayOfYear: int)
    requires 0 <= y < 400 && 0 <= dayOfYear < YearLength(y)
    ensures YearOfEra(YearStart(y) + dayOfYear) == y
  {
    var century, rest := y / 100, y % 100;
    var quad, last := rest / 4, rest % 4;
    assert y == 100 * century + 4 * quad + last;
    assert y / 4 == 25 * century + quad;
    var doe := YearStart(y) + dayOfYear;
    var inCentury := 365 * rest + quad + dayOfYear;
    assert doe == 36_524 * century + inCentury;
    YearInEra(century, quad, last, dayOfYear, doe);
  }

  /** The formula's three quotients: a quad whose days have run past 1460 counts one more, and only the last day of
      an era reaches the third. */
  lemma EraQuotients(century: int, quad: int, inQuad: int, doe: int)
    requires 0 <= century < 4 && 0 <= quad < 25 && 0 <= inQuad < 2 * 1_460
    requires doe == 1_460 * (25 * century + quad) + inQuad && 0 <= doe < 146_097
    requires 36_524 * century <= doe < 36_524 * (century + 1) || doe == 146_096
    ensures doe / 1_460 == 25 * century + quad + if inQuad >= 1_460 then 1 else 0
    ensures doe == 146_096 ==> doe / 36_524 == 4 && doe / 146_096 == 1
    ensures doe != 146_096 ==> doe / 36_524 == century && doe / 146_096 == 0
  {
    DivUnique(doe, 1_460, 25 * century + quad + if inQuad >= 1_460 then 1 else 0);
    if doe != 146_096 {
      DivUnique(doe, 36_524, century);
    }
  }

  lemma YearInEra(century: int, quad: int, last: int, dayOfYear: int, doe: int)
    requires 0 <= century < 4 && 0 <= quad < 25 && 0 <= last < 4
    requires 0 <= dayOfYear <= (if last == 3 && (quad < 24 || century == 3) then 365 else 364)
    requires doe == 36_524 * century + 1_461 * quad + 365 * last + dayOfYear
    ensures YearOfEra(doe) == 100 * century + 4 * quad + last
  {
    var y := 100 * century + 4 * quad + last;
    var inQuad := 24 * century + quad + 365 * last + dayOfYear;
    EraQuotients(century, quad, inQuad, doe);
    DivUnique(doe - doe / 1_460 + doe / 36_524 - doe / 146_096, 365, y);
  }

  /** Every day of an era falls in exactly one of its four hundred years. */
  lemma {:induction false} YearExists(doe: int, y: int) returns (found: int)
    requires 0 <= y < 400 && YearStart(y) <= doe < 146_097
    ensures 0 <= found < 400 && YearStart(found) <= doe < YearStart(found) + YearLength(found)
    decreases 400 - y
  {
    hide YearStart, YearLength;
    YearStartSteps(y);
    if doe < YearStart(y) + YearLength(y) {
      found := y;
    } else {
      found := YearExists(doe, y + 1);
    }
  }

  // ---------------------------------------------------------------- the months of one such year

  /** Day of the year on which the month `pivot` months after March starts. */
  function MonthStart(pivot: int): int {
    (153 * pivot + 2) / 5
  }

  lemma MonthStarts(pivot: int)
    ensures MonthStart(pivot) < MonthStart(pivot + 1)
    ensures pivot <= 11 ==> MonthStart(pivot) <= MonthStart(11)
    ensures MonthStart(0) == 0 && MonthStart(11) == 337 && MonthStart(12) == 367
  {
  }

  lemma PivotFinds(dayOfYear: int) returns (pivot: int)
    requires 0 <= dayOfYear < 366
    ensures 0 <= pivot <= 11 && MonthStart(pivot) <= dayOfYear < MonthStart(pivot + 1)
  {
    pivot := (5 * dayOfYear + 2) / 153;
  }

  lemma MonthLength(year: int, pivot: int)
    requires 0 <= pivot <= 11
    ensures DaysIn(year, if pivot < 10 then pivot + 3 else pivot - 9) ==
            if pivot == 11 then (if IsLeap(year) then 29 else 28) else MonthStart(pivot + 1) - MonthStart(pivot)
  {
    hide IsLeap;
  }

  lemma DateInMonth(year: int, dayOfYear: int, pivot: int)
    requires 0 <= pivot <= 11 && MonthStart(pivot) <= dayOfYear < MonthStart(pivot + 1)
    ensures DateIn(year, dayOfYear) == Date(if pivot < 10 then year else year + 1,
                                            if pivot < 10 then pivot + 3 else pivot - 9,
                                            dayOfYear - MonthStart(pivot) + 1)
  {
    assert (5 * dayOfYear + 2) / 153 == pivot;
  }

  lemma DateInIsValid(year: int, dayOfYear: int)
    requires 0 <= dayOfYear < YearLength(year)
    ensures IsValid(DateIn(year, dayOfYear))
    ensures DateIn(year, 0) == Date(year, 3, 1)
    ensures dayOfYear + 1 < YearLength(year) ==> NextDay(DateIn(year, dayOfYear)) == DateIn(year, dayOfYear + 1)
    ensures dayOfYear + 1 == YearLength(year) ==> NextDay(DateIn(year, dayOfYear)) == Date(year + 1, 3, 1)
  {
    hide IsLeap, DaysIn, DateIn, MonthStart;
    var pivot := PivotFinds(dayOfYear);
    MonthStarts(0);
    MonthStarts(pivot + 1);
    DateInMonth(year, dayOfYear, pivot);
    DateInMonth(year, 0, 0);
    MonthLength(if pivot < 10 then year else year + 1, pivot);
    if dayOfYear + 1 < YearLength(year) {
      DateInMonth(year, dayOfYear + 1, if dayOfYear + 1 < MonthStart(pivot + 1) then pivot else pivot + 1);
    }
  }

  // ---------------------------------------------------------------- the theorems

  lemma LocatedAt(n: int, era: int, y: int, dayOfYear: int)
    requires 0 <= y < 400 && 0 <= dayOfYear < YearLength(y)
    requires n + 719_468 == era * 146_097 + YearStart(y) + dayOfYear
    ensures CivilFromDays(n) == DateIn(y + era * 400, dayOfYear)
  {
    hide DateIn, YearOfEra, YearStart, YearLength;
    YearEnds(y, dayOfYear);
    DivUnique(n + 719_468, 146_097, era);
    YearOfEraFinds(y, dayOfYear);
  }

  lemma YearEnds(y: int, dayOfYear: int)
    requires 0 <= y < 400 && 0 <= dayOfYear < YearLength(y)
    ensures 0 <= YearStart(y) + dayOfYear < 146_097
  {
  }

  lemma Located(n: int) returns (era: int, y: int, dayOfYear: int)
    ensures 0 <= y < 400 && 0 <= dayOfYear < YearLength(y)
    ensures n + 719_468 == era * 146_097 + YearStart(y) + dayOfYear
  {
    era := (n + 719_468) / 146_097;
    var doe := (n + 719_468) % 146_097;
    y := YearExists(doe, 0);
    dayOfYear := doe - YearStart(y);
  }

  lemma LeapRepeats(y: int, era: int)
    ensures IsLeap(y + era * 400) == IsLeap(y)
  {
    ModShift(y, era * 100, 4);
    ModShift(y, era * 4, 100);
    ModShift(y, era, 400);
  }

  /** The calendar successor: for every day count, past or future, the closed form gives real dates, the
      next day's date is the calendar's next date, and day zero is the epoch. */
  lemma CountsDayByDay(n: int)
    ensures IsValid(CivilFromDays(n))
    ensures CivilFromDays(n + 1) == NextDay(CivilFromDays(n))
    ensures CivilFromDays(0) == Date(1970, 1, 1)
  {
    hide CivilFromDays, DateIn, IsValid, NextDay, IsLeap;
    var era, y, dayOfYear := Located(n);
    var year := y + era * 400;
    LocatedAt(n, era, y, dayOfYear);
    LeapRepeats(y + 1, era);
    DateInIsValid(year, dayOfYear);
    YearStartSteps(y);
    if dayOfYear + 1 < YearLength(y) {
      LocatedAt(n + 1, era, y, dayOfYear + 1);
    } else if y < 399 {
      LocatedAt(n + 1, era, y + 1, 0);
      DateInIsValid(year + 1, 0);
    } else {
      LocatedAt(n + 1, era + 1, 0, 0);
      DateInIsValid(year + 1, 0);
    }
    EpochIsDayZero();
  }

  lemma EpochIsDayZero()
    ensures CivilFromDays(0) == Date(1970, 1, 1)
  {
    hide CivilFromDays;
    LocatedAt(0, 4, 369, 306);
  }

  // ---------------------------------------------------------------- a bijection

  /** Dates in calendar order. */
  function Ordinal(date: Date): int {
    date.year * 372 + date.month * 31 + date.day
  }

  /** Distinct days get distinct dates, in order. */
  lemma {:induction false} LaterDaysAreLaterDates(m: int, n: int)
    requires m < n
    ensures Ordinal(CivilFromDays(m)) < Ordinal(CivilFromDays(n))
    decreases n - m
  {
    hide CivilFromDays;
    CountsDayByDay(n - 1);
    if m < n - 1 {
      LaterDaysAreLaterDates(m, n - 1);
    }
  }

  /** `Ordinal` orders dates by year, then month, then day. */
  lemma OrdinalIsLexicographic(a: Date, b: Date)
    requires IsValid(a) && IsValid(b)
    ensures Ordinal(a) == Ordinal(b) ==> a == b
    ensures Ordinal(a) < Ordinal(b) <==>
            a.year < b.year || (a.year == b.year && (a.month < b.month || (a.month == b.month && a.day < b.day)))
  {
  }

  /** Nothing lies between a date and the next. */
  lemma NextDayIsNext(a: Date, b: Date)
    requires IsValid(a) && IsValid(b) && Ordinal(a) < Ordinal(b)
    ensures Ordinal(NextDay(a)) <= Ordinal(b)
  {
    OrdinalIsLexicographic(a, b);
    assert 1 <= a.day <= 31 && 1 <= b.day <= 31 && b.day <= DaysIn(b.year, b.month);
    hide IsLeap, DaysIn;
  }

  /** Walking day by day from a known date reaches every later valid date. */
  lemma {:induction false} ReachesForward(date: Date, from: int) returns (n: int)
    requires IsValid(date) && Ordinal(CivilFromDays(from)) <= Ordinal(date)
    ensures n >= from && CivilFromDays(n) == date
    decreases Ordinal(date) - Ordinal(CivilFromDays(from))
  {
    hide CivilFromDays;
    CountsDayByDay(from);
    OrdinalIsLexicographic(CivilFromDays(from), date);
    if CivilFromDays(from) == date {
      n := from;
    } else {
      NextDayIsNext(CivilFromDays(from), date);
      LaterDaysAreLaterDates(from, from + 1);
      n := ReachesForward(date, from + 1);
    }
  }

  /** Some day falls on or before any date. */
  lemma {:induction false} SomeDayPrecedes(date: Date, from: int) returns (n: int)
    ensures Ordinal(CivilFromDays(n)) <= Ordinal(date)
    decreases Max(0, Ordinal(CivilFromDays(from)) - Ordinal(date))
  {
    hide CivilFromDays;
    if Ordinal(CivilFromDays(from)) <= Ordinal(date) {
      n := from;
    } else {
      LaterDaysAreLaterDates(from - 1, from);
      n := SomeDayPrecedes(date, from - 1);
    }
  }

  /** The map is a bijection between day counts and the dates of the calendar: every valid date is the date
      of one day, and of no other. */
  lemma EveryDateIsOneDay(date: Date) returns (n: int)
    requires IsValid(date)
    ensures CivilFromDays(n) == date
    ensures forall m: int :: CivilFromDays(m) == date ==> m == n
  {
    var start := SomeDayPrecedes(date, 0);
    n := ReachesForward(date, start);
    forall m: int | CivilFromDays(m) == date
      ensures m == n
    {
      if m < n {
        LaterDaysAreLaterDates(m, n);
      } else if n < m {
        LaterDaysAreLaterDates(n, m);
      }
    }
  }

  // ---------------------------------------------------------------- instants

  datatype CivilTime = CivilTime(date: Date, hour: int, minute: int, second: int, micros: int)

  const US_PER_SECOND: int := 1_000_000
  const SECONDS_PER_DAY: int := 86_400

  /** The UTC breakdown of an instant in microseconds since the epoch. */
  function Civil(us: I64): CivilTime {
    var seconds := us / US_PER_SECOND;
    var daySeconds := seconds % SECONDS_PER_DAY;
    CivilTime(CivilFromDays(seconds / SECONDS_PER_DAY),
              daySeconds / 3_600, daySeconds % 3_600 / 60, daySeconds % 60, us % US_PER_SECOND)
  }

  /** A breakdown loses nothing: its clock fields are in range, and they and the day put the instant back
      together, before the epoch as after it. */
  lemma CivilLosesNothing(us: I64)
    ensures var t := Civil(us);
            var day := us / US_PER_SECOND / SECONDS_PER_DAY;
            && 0 <= t.hour < 24 && 0 <= t.minute < 60 && 0 <= t.second < 60 && 0 <= t.micros < US_PER_SECOND
            && IsValid(t.date) && t.date == CivilFromDays(day)
            && (((day * 24 + t.hour) * 60 + t.minute) * 60 + t.second) * US_PER_SECOND + t.micros == us
  {
    hide CivilFromDays;
    var seconds := us / US_PER_SECOND;
    CountsDayByDay(seconds / SECONDS_PER_DAY);
  }

  /** So two instants with one breakdown are one instant. */
  lemma CivilIsInjective(a: I64, b: I64)
    requires Civil(a) == Civil(b)
    ensures a == b
  {
    hide CivilFromDays;
    CivilLosesNothing(a);
    CivilLosesNothing(b);
    var da, db := a / US_PER_SECOND / SECONDS_PER_DAY, b / US_PER_SECOND / SECONDS_PER_DAY;
    if da < db {
      LaterDaysAreLaterDates(da, db);
    } else if db < da {
      LaterDaysAreLaterDates(db, da);
    }
  }
}
