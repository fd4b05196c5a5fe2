/** The patient card (`PatientCard`): the age it shows, in whole years from
    the birth date to today's date, and the shortened id. Today's date is a
    parameter. */
module PatientCard {
  import opened JsValues
  import opened JsStrings
  import opened Calendar

  /** The `n`-th anniversary of a date: same month and day, `n` years later
      (for 29 February in a common year this is a day the calendar lacks,
      which still orders correctly against real days). */
  function Anniversary(birth: UtcDate, n: int): UtcDate
  {
    UtcDate(birth.year + n, birth.month, birth.day)
  }

  /** `calculateAge` on the calendar fields of the two dates: the difference
      of the years, less one while this year's birthday is still ahead. The
      result is the number of anniversaries reached: the last one reached
      is on or before today and the next one is after it. */
  function CalculateAge(birth: UtcDate, today: UtcDate): (age: int)
    ensures OnOrBefore(Anniversary(birth, age), today)
    ensures !OnOrBefore(Anniversary(birth, age + 1), today)
  {
    var age := today.year - birth.year;
    var monthDiff := today.month - birth.month;
    if monthDiff < 0 || (monthDiff == 0 && today.day < birth.day) then age - 1 else age
  }

  /** Anniversaries come in order. */
  lemma {:induction false} AnniversariesOrdered(birth: UtcDate, m: int, n: int)
    requires m <= n
    ensures OnOrBefore(Anniversary(birth, m), Anniversary(birth, n))
  {
  }

  lemma OnOrBeforeTransitive(a: UtcDate, b: UtcDate, c: UtcDate)
    requires OnOrBefore(a, b) && OnOrBefore(b, c)
    ensures OnOrBefore(a, c)
  {
  }

  /** The age is the only count of years whose anniversary is reached and
      whose next anniversary is not. */
  lemma {:induction false} AgeIsCompletedYears(birth: UtcDate, today: UtcDate, n: int)
    requires OnOrBefore(Anniversary(birth, n), today)
    requires !OnOrBefore(Anniversary(birth, n + 1), today)
    ensures CalculateAge(birth, today) == n
  {
    var age := CalculateAge(birth, today);
    if n < age {
      AnniversariesOrdered(birth, n + 1, age);
      OnOrBeforeTransitive(Anniversary(birth, n + 1), Anniversary(birth, age), today);
    } else if n > age {
      AnniversariesOrdered(birth, age + 1, n);
      OnOrBeforeTransitive(Anniversary(birth, age + 1), Anniversary(birth, n), today);
    }
  }

  /** On the `n`-th anniversary the age is `n`; on the day before it, in the
      same month, it is one less. */
  lemma AgeOnAnniversary(birth: UtcDate, n: int)
    ensures CalculateAge(birth, Anniversary(birth, n)) == n
    ensures CalculateAge(birth, UtcDate(birth.year + n, birth.month, birth.day - 1)) == n - 1
  {
  }

  /** Someone born today is 0 years old. */
  lemma BornTodayIsZero(birth: UtcDate)
    ensures CalculateAge(birth, birth) == 0
  {
  }

  /** A later day never shows a smaller age. */
  lemma {:induction false} AgeMonotone(birth: UtcDate, earlier: UtcDate, later: UtcDate)
    requires OnOrBefore(earlier, later)
    ensures CalculateAge(birth, earlier) <= CalculateAge(birth, later)
  {
    var a := CalculateAge(birth, earlier);
    OnOrBeforeTransitive(Anniversary(birth, a), earlier, later);
    if CalculateAge(birth, later) < a {
      AnniversariesOrdered(birth, CalculateAge(birth, later) + 1, a);
      OnOrBeforeTransitive(Anniversary(birth, CalculateAge(birth, later) + 1), Anniversary(birth, a), later);
    }
  }

  /** `patient.id.substring(0, 8) + "..."`: at most the first eight
      characters, then an ellipsis. */
  function ShortId(id: string): (r: string)
    ensures |r| == (if |id| < 8 then |id| else 8) + 3
    ensures r[|r| - 3..] == "..."
    ensures IsPrefix(r[..|r| - 3], id)
  {
    (if |id| < 8 then id else id[..8]) + "..."
  }

  // ---------------------------------------------------------------------------
  // The age as written: a date-only text read as UTC, shown in local time

  /** Days in a month of the proleptic Gregorian calendar. */
  function DaysInMonth(year: int, month: int): (n: int)
    requires 1 <= month <= 12
    ensures 28 <= n <= 31
  {
    if month == 2 then (if (year % 4 == 0 && year % 100 != 0) || year % 400 == 0 then 29 else 28)
    else if month in {4, 6, 9, 11} then 30
    else 31
  }

  /** The day before a date. */
  function PreviousDay(d: UtcDate): (r: UtcDate)
    requires 1 <= d.month <= 12 && 1 <= d.day
    ensures 1 <= r.month <= 12 && 1 <= r.day
    ensures OnOrBefore(r, d) && r != d
  {
    if d.day > 1 then UtcDate(d.year, d.month, d.day - 1)
    else if d.month > 1 then UtcDate(d.year, d.month - 1, DaysInMonth(d.year, d.month - 1))
    else UtcDate(d.year - 1, 12, 31)
  }

  /** The local calendar date of UTC midnight of `d`, on a clock whose
      offset from UTC is `offsetMinutes` (less than a day either way): west
      of Greenwich it is still the previous day. */
  function LocalDateOfUtcMidnight(d: UtcDate, offsetMinutes: int): (r: UtcDate)
    requires 1 <= d.month <= 12 && 1 <= d.day
    requires -1440 < offsetMinutes < 1440
    ensures offsetMinutes >= 0 ==> r == d
    ensures offsetMinutes < 0 ==> r == PreviousDay(d)
  {
    if offsetMinutes < 0 then PreviousDay(d) else d
  }

  /** `calculateAge` as written, for a birth date the backend sends as a
      date-only `YYYY-MM-DD` text: `new Date` reads it as UTC midnight and
      `getFullYear`/`getMonth`/`getDate` read it in the browser's time zone. */
  function CalculateAgeAsWritten(birth: UtcDate, today: UtcDate, offsetMinutes: int): int
    requires 1 <= birth.month <= 12 && 1 <= birth.day
    requires -1440 < offsetMinutes < 1440
  {
    CalculateAge(LocalDateOfUtcMidnight(birth, offsetMinutes), today)
  }

  /** West of Greenwich (Brazil is at UTC-3) the card counts a birthday one
      day early: on the day before the `n`-th anniversary it already shows
      `n`, where the age in whole years is `n - 1`. */
  lemma {:induction false} AgeCountedEarlyWestOfUtc(birth: UtcDate, n: int, offsetMinutes: int)
    requires 1 <= birth.month <= 12 && 2 <= birth.day
    requires -1440 < offsetMinutes < 0
    ensures var dayBefore := UtcDate(birth.year + n, birth.month, birth.day - 1);
      && CalculateAgeAsWritten(birth, dayBefore, offsetMinutes) == n
      && CalculateAge(birth, dayBefore) == n - 1
  {
    AgeOnAnniversary(birth, n);
    AgeOnAnniversary(PreviousDay(birth), n);
  }

  /** East of Greenwich, and at UTC itself, the card shows the age in whole years. */
  lemma AsWrittenAgreesEastOfUtc(birth: UtcDate, today: UtcDate, offsetMinutes: int)
    requires 1 <= birth.month <= 12 && 1 <= birth.day
    requires 0 <= offsetMinutes < 1440
    ensures CalculateAgeAsWritten(birth, today, offsetMinutes) == CalculateAge(birth, today)
  {
  }

  /** A concrete case: born on 10 May 2000, seen at UTC-3 on 9 May 2025. */
  lemma AgeCountedEarlyExample()
    ensures CalculateAgeAsWritten(UtcDate(2000, 5, 10), UtcDate(2025, 5, 9), -180) == 25
    ensures CalculateAge(UtcDate(2000, 5, 10), UtcDate(2025, 5, 9)) == 24
  {
  }
}
