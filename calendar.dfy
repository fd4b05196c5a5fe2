/** UTC instants as `Date.prototype.toISOString` renders them, and the
    `YYYY-MM-DD` day key the chart buckets records by. Parsing the backend's
    `created_at` text into an instant is not modelled: a record carries the
    instant it denotes. */
module Calendar {
  import opened JsStrings

  /** A proleptic Gregorian calendar day in UTC. */
  datatype UtcDate = UtcDate(year: int, month: int, day: int)

  /** A moment: its UTC day and the milliseconds elapsed since that day's midnight. */
  datatype Instant = Instant(date: UtcDate, millisOfDay: int)

  const MILLIS_PER_DAY: int := 86400000

  /** The ranges `toISOString` renders (a JavaScript date lies within 275760
      years of 1970, inside the six-digit expanded years). */
  predicate IsValidDate(d: UtcDate)
  {
    -999999 <= d.year <= 999999 && 1 <= d.month <= 12 && 1 <= d.day <= 31
  }

  /** A valid `Date`: `toISOString` renders it instead of throwing `RangeError`. */
  type DateTime = t: Instant | IsValidDate(t.date) && 0 <= t.millisOfDay < MILLIS_PER_DAY
    witness Instant(UtcDate(1970, 1, 1), 0)

  /** The year as `toISOString` writes it: four digits for years 0 to 9999,
      otherwise a sign and six digits. */
  function YearText(year: int): (r: string)
    requires -999999 <= year <= 999999
    ensures 0 <= year <= 9999 ==> |r| == 4 && AllDigits(r)
  {
    if 0 <= year <= 9999 then PadDigits(year, 4)
    else (if year < 0 then "-" else "+") + PadDigits(if year < 0 then -year else year, 6)
  }

  /** The date part of the ISO string: `YYYY-MM-DD`. */
  function DateText(d: UtcDate): string
    requires IsValidDate(d)
  {
    YearText(d.year) + "-" + PadDigits(d.month, 2) + "-" + PadDigits(d.day, 2)
  }

  /** The time part of the ISO string: `HH:mm:ss.sssZ`. */
  function TimeText(millisOfDay: int): string
    requires 0 <= millisOfDay < MILLIS_PER_DAY
  {
    var seconds := millisOfDay / 1000;
    PadDigits(seconds / 3600, 2) + ":" + PadDigits(seconds / 60 % 60, 2) + ":"
      + PadDigits(seconds % 60, 2) + "." + PadDigits(millisOfDay % 1000, 3) + "Z"
  }

  /** `date.toISOString()`. */
  function IsoString(t: DateTime): string
  {
    DateText(t.date) + "T" + TimeText(t.millisOfDay)
  }

  /** `new Date(created_at).toISOString().split("T")[0]`. */
  function DayKey(t: DateTime): string
  {
    Split(IsoString(t), 'T')[0]
  }

  /** The day key is exactly the date part of the ISO string. */
  lemma DayKeyIsDateText(t: DateTime)
    ensures DayKey(t) == DateText(t.date)
  {
    var d := t.date;
    assert 'T' !in DateText(d) by {
      var y, m, dd := YearText(d.year), PadDigits(d.month, 2), PadDigits(d.day, 2);
      assert forall i :: 0 <= i < |y| ==> y[i] != 'T';
      assert DateText(d) == y + "-" + m + "-" + dd;
    }
    assert IsoString(t) == DateText(d) + ['T'] + TimeText(t.millisOfDay);
    SplitAtFirst(DateText(d), TimeText(t.millisOfDay), 'T');
  }

  /** Calendar order of days: earlier year, or same year and earlier month,
      or same month and not a later day. */
  predicate OnOrBefore(a: UtcDate, b: UtcDate)
  {
    a.year < b.year || (a.year == b.year && (a.month < b.month || (a.month == b.month && a.day <= b.day)))
  }

  /** Numerals of one width are equal exactly when their numbers are. */
  lemma PadDigitsInjective(m: nat, n: nat, width: nat)
    requires m < Pow10(width) && n < Pow10(width)
    ensures PadDigits(m, width) == PadDigits(n, width) <==> m == n
  {
    PadDigitsValue(m, width);
    PadDigitsValue(n, width);
  }

  /** Joining with a dash groups either way. */
  lemma DashJoin(a: string, x: string)
    ensures a + "-" + x == a + ("-" + x)
  {
  }

  /** Comparing two-digit fields joined by a separator compares their numbers
      in order. */
  lemma TwoFieldOrder(m1: nat, d1: nat, m2: nat, d2: nat)
    requires m1 < 100 && d1 < 100 && m2 < 100 && d2 < 100
    ensures LexLe(PadDigits(m1, 2) + "-" + PadDigits(d1, 2), PadDigits(m2, 2) + "-" + PadDigits(d2, 2))
      <==> m1 < m2 || (m1 == m2 && d1 <= d2)
  {
    assert Pow10(2) == 100;
    var a, b := PadDigits(m1, 2), PadDigits(m2, 2);
    var x, y := PadDigits(d1, 2), PadDigits(d2, 2);
    assert LexLe(a + "-" + x, b + "-" + y) == if a == b then LexLe("-" + x, "-" + y) else LexLe(a, b) by {
      DashJoin(a, x);
      DashJoin(b, y);
      LexLeConcat(a, "-" + x, b, "-" + y);
    }
    assert LexLe("-" + x, "-" + y) == LexLe(x, y) by {
      LexLeConcat("-", x, "-", y);
    }
    assert a == b <==> m1 == m2 by {
      PadDigitsInjective(m1, m2, 2);
    }
    assert LexLe(a, b) <==> m1 <= m2 by {
      PadDigitsOrder(m1, m2, 2);
    }
    assert LexLe(x, y) <==> d1 <= d2 by {
      PadDigitsOrder(d1, d2, 2);
    }
  }

  /** A four-digit year, then the dash and the rest. */
  lemma DateTextParts(d: UtcDate)
    requires IsValidDate(d) && 0 <= d.year <= 9999
    ensures DateText(d) == PadDigits(d.year, 4) + ("-" + (PadDigits(d.month, 2) + "-" + PadDigits(d.day, 2)))
  {
  }

  /** For years 0 to 9999 the day keys sort in calendar order, so sorting
      rows by their key string sorts them chronologically. */
  lemma DateTextOrderIsCalendarOrder(a: UtcDate, b: UtcDate)
    requires IsValidDate(a) && IsValidDate(b)
    requires 0 <= a.year <= 9999 && 0 <= b.year <= 9999
    ensures LexLe(DateText(a), DateText(b)) <==> OnOrBefore(a, b)
  {
    assert Pow10(4) == 10000;
    var ya, yb := PadDigits(a.year, 4), PadDigits(b.year, 4);
    var ta := PadDigits(a.month, 2) + "-" + PadDigits(a.day, 2);
    var tb := PadDigits(b.month, 2) + "-" + PadDigits(b.day, 2);
    assert LexLe(DateText(a), DateText(b)) == if ya == yb then LexLe("-" + ta, "-" + tb) else LexLe(ya, yb) by {
      DateTextParts(a);
      DateTextParts(b);
      LexLeConcat(ya, "-" + ta, yb, "-" + tb);
    }
    assert LexLe("-" + ta, "-" + tb) == LexLe(ta, tb) by {
      LexLeConcat("-", ta, "-", tb);
    }
    assert ya == yb <==> a.year == b.year by {
      PadDigitsInjective(a.year, b.year, 4);
    }
    assert LexLe(ya, yb) <==> a.year <= b.year by {
      PadDigitsOrder(a.year, b.year, 4);
    }
    TwoFieldOrder(a.month, a.day, b.month, b.day);
  }
}
