/** Calendar dates and times as integer records, standing in for Python's
    `datetime`: Gregorian month lengths, the day number used for "one day
    later", the day of year that `%j` counts, and the zero-padded texts
    `strftime` writes with `%Y%m%d`, `%Y-%m-%d` and `isoformat()`. */
module Dates {
  import opened Base
  import opened Strings

  datatype DateTime = DateTime(year: nat, month: nat, day: nat, hour: nat, minute: nat, second: nat)

  predicate IsLeap(y: int)
  {
    y % 4 == 0 && (y % 100 != 0 || y % 400 == 0)
  }

  function DaysInYear(y: int): int
  {
    if IsLeap(y) then 366 else 365
  }

  function DaysInMonth(y: int, m: int): int
  {
    if m == 2 then (if IsLeap(y) then 29 else 28)
    else if m == 4 || m == 6 || m == 9 || m == 11 then 30
    else 31
  }

  /** A calendar day Python's `datetime` accepts (years 1 to 9999). */
  predicate ValidDate(y: int, m: int, d: int)
  {
    1 <= y <= 9999 && 1 <= m <= 12 && 1 <= d <= DaysInMonth(y, m)
  }

  /** A `datetime` value without microseconds. */
  predicate Valid(t: DateTime)
  {
    ValidDate(t.year, t.month, t.day) &&
    0 <= t.hour < 24 && 0 <= t.minute < 60 && 0 <= t.second < 60
  }

  /** `t.date()` as a datetime at midnight. */
  function DateOf(t: DateTime): DateTime
  {
    DateTime(t.year, t.month, t.day, 0, 0, 0)
  }

  predicate SameDay(a: DateTime, b: DateTime)
  {
    a.year == b.year && a.month == b.month && a.day == b.day
  }

  predicate AtMidnight(t: DateTime)
  {
    t.hour == 0 && t.minute == 0 && t.second == 0
  }

  /** A number that orders calendar days: day, then month, then year. */
  function DayStamp(t: DateTime): int
  {
    t.day + 32 * (t.month + 13 * t.year)
  }

  /** A number that orders datetimes: the day, then the time of day. */
  function Stamp(t: DateTime): int
  {
    86400 * DayStamp(t) + 3600 * t.hour + 60 * t.minute + t.second
  }

  /** `a.date() < b.date()`. */
  predicate DayBefore(a: DateTime, b: DateTime)
  {
    DayStamp(a) < DayStamp(b)
  }

  /** `a < b` on datetimes. */
  predicate Before(a: DateTime, b: DateTime)
  {
    Stamp(a) < Stamp(b)
  }

  /** `a <= b` on datetimes. */
  predicate AtOrBefore(a: DateTime, b: DateTime)
  {
    !Before(b, a)
  }

  /** On valid datetimes the stamps compare as Python compares `date` and
      `datetime` values: field by field, from the year down to the second. */
  lemma OrderIsLexicographic(a: DateTime, b: DateTime)
    requires Valid(a) && Valid(b)
    ensures DayBefore(a, b) <==>
      a.year < b.year ||
      (a.year == b.year && (a.month < b.month || (a.month == b.month && a.day < b.day)))
    ensures SameDay(a, b) <==> DayStamp(a) == DayStamp(b)
    ensures Before(a, b) <==>
      DayBefore(a, b) ||
      (SameDay(a, b) &&
        (a.hour < b.hour || (a.hour == b.hour &&
          (a.minute < b.minute || (a.minute == b.minute && a.second < b.second)))))
    ensures Stamp(a) == Stamp(b) <==> a == b
  {
    DayStampLexicographic(a, b);
    TimeBreaksTies(a, b);
  }

  lemma DayStampLexicographic(a: DateTime, b: DateTime)
    requires Valid(a) && Valid(b)
    ensures DayBefore(a, b) <==>
      a.year < b.year ||
      (a.year == b.year && (a.month < b.month || (a.month == b.month && a.day < b.day)))
    ensures SameDay(a, b) <==> DayStamp(a) == DayStamp(b)
  {
  }

  lemma TimeBreaksTies(a: DateTime, b: DateTime)
    requires Valid(a) && Valid(b)
    requires SameDay(a, b) <==> DayStamp(a) == DayStamp(b)
    ensures Before(a, b) <==>
      DayBefore(a, b) ||
      (SameDay(a, b) &&
        (a.hour < b.hour || (a.hour == b.hour &&
          (a.minute < b.minute || (a.minute == b.minute && a.second < b.second)))))
    ensures Stamp(a) == Stamp(b) <==> a == b
  {
  }

  /** `<` is a strict total order on valid datetimes, and `<=` agrees with
      it. */
  lemma BeforeIsStrictTotalOrder(a: DateTime, b: DateTime, c: DateTime)
    requires Valid(a) && Valid(b)
    ensures !Before(a, a)
    ensures Before(a, b) && Before(b, c) ==> Before(a, c)
    ensures a == b || Before(a, b) || Before(b, a)
    ensures AtOrBefore(a, b) <==> Before(a, b) || a == b
  {
    OrderIsLexicographic(a, b);
  }

  /** Days compare as the datetimes at their midnights. */
  lemma DayOrder(a: DateTime, b: DateTime)
    requires Valid(a) && Valid(b)
    ensures Before(a, b) ==> !DayBefore(b, a)
    ensures DayBefore(a, b) ==> Before(a, b)
    ensures !DayBefore(a, b) && Before(a, b) ==> SameDay(a, b)
  {
    OrderIsLexicographic(a, b);
  }

  /** A datetime between two others on one day is on that day too. */
  lemma SameDayBetween(a: DateTime, b: DateTime, c: DateTime)
    requires Valid(a) && Valid(b) && Valid(c)
    requires SameDay(a, c) && AtOrBefore(a, b) && Before(b, c)
    ensures SameDay(b, c)
  {
    OrderIsLexicographic(a, b);
    OrderIsLexicographic(b, c);
  }

  /** A datetime after one no earlier in the day than `c`'s day, and before
      `c`, is on `c`'s day. */
  lemma LastOnDay(a: DateTime, b: DateTime, c: DateTime)
    requires Valid(a) && Valid(b) && Valid(c)
    requires !DayBefore(a, c) && AtOrBefore(a, b) && Before(b, c)
    ensures SameDay(b, c)
  {
    OrderIsLexicographic(a, b);
    OrderIsLexicographic(b, c);
  }

  // ---------------------------------------------------------------------
  // Day numbers (proleptic Gregorian ordinal, 0001-01-01 is day 1)
  // ---------------------------------------------------------------------

  function DaysBeforeMonth(y: int, m: int): int
    requires 1 <= m <= 13
    decreases m
  {
    if m == 1 then 0 else DaysBeforeMonth(y, m - 1) + DaysInMonth(y, m - 1)
  }

  function DaysBeforeYear(y: int): int
  {
    var p := y - 1;
    365 * p + p / 4 - p / 100 + p / 400
  }

  /** `date.toordinal()`. */
  function DayNumber(t: DateTime): int
    requires 1 <= t.month <= 12
  {
    DaysBeforeYear(t.year) + DaysBeforeMonth(t.year, t.month) + t.day
  }

  lemma DaysBeforeYearStep(y: int)
    requires y >= 1
    ensures DaysBeforeYear(y + 1) == DaysBeforeYear(y) + DaysInYear(y)
  {
    DivStep4(y);
    DivStep100(y);
    DivStep400(y);
    CenturiesDivide(y);
  }

  /** Multiples of 400 are multiples of 100, which are multiples of 4. */
  lemma CenturiesDivide(y: int)
    ensures y % 400 == 0 ==> y % 100 == 0
    ensures y % 100 == 0 ==> y % 4 == 0
  {
    if y % 400 == 0 {
      var k := y / 400;
      assert y == 100 * (4 * k);
    }
    if y % 100 == 0 {
      var k := y / 100;
      assert y == 4 * (25 * k);
    }
  }

  lemma DivStep4(y: int)
    ensures (y - 1) / 4 + (if y % 4 == 0 then 1 else 0) == y / 4
  {
  }

  lemma DivStep100(y: int)
    ensures (y - 1) / 100 + (if y % 100 == 0 then 1 else 0) == y / 100
  {
  }

  lemma DivStep400(y: int)
    ensures (y - 1) / 400 + (if y % 400 == 0 then 1 else 0) == y / 400
  {
  }

  lemma DaysBeforeMonthThirteen(y: int)
    ensures DaysBeforeMonth(y, 13) == DaysInYear(y)
  {
  }

  /** `t + timedelta(days=1)`: the next calendar day at the same time of day.
      Can step past year 9999, which Python refuses (see NextDayStaysValid). */
  function NextDay(t: DateTime): DateTime
  {
    if t.day < DaysInMonth(t.year, t.month) then t.(day := t.day + 1)
    else if t.month < 12 then t.(month := t.month + 1, day := 1)
    else t.(year := t.year + 1, month := 1, day := 1)
  }

  /** One day later in day numbers, the same time of day, and the next
      calendar day in the day order. */
  lemma NextDayAdvancesOneDay(t: DateTime)
    requires Valid(t)
    ensures 1 <= NextDay(t).month <= 12
    ensures DayNumber(NextDay(t)) == DayNumber(t) + 1
    ensures NextDay(t).hour == t.hour && NextDay(t).minute == t.minute && NextDay(t).second == t.second
    ensures DayBefore(t, NextDay(t))
  {
    var n := NextDay(t);
    if t.day < DaysInMonth(t.year, t.month) {
      assert n == t.(day := t.day + 1);
    } else if t.month < 12 {
      assert n == t.(month := t.month + 1, day := 1);
      assert DaysBeforeMonth(t.year, t.month + 1) == DaysBeforeMonth(t.year, t.month) + DaysInMonth(t.year, t.month);
    } else {
      assert n == t.(year := t.year + 1, month := 1, day := 1);
      DaysBeforeYearStep(t.year);
      DaysBeforeMonthThirteen(t.year);
      assert DaysBeforeMonth(t.year, 13) == DaysBeforeMonth(t.year, 12) + 31;
    }
  }

  /** Stepping a day stays within Python's range except from 9999-12-31. */
  lemma NextDayStaysValid(t: DateTime)
    requires Valid(t)
    ensures Valid(NextDay(t)) <==> !(t.year == 9999 && t.month == 12 && t.day == 31)
  {
  }

  /** No calendar day lies strictly between t and NextDay(t). */
  lemma NextDayIsNext(t: DateTime, u: DateTime)
    requires Valid(t) && Valid(u)
    requires DayBefore(t, u)
    ensures !DayBefore(u, NextDay(t))
  {
    OrderIsLexicographic(t, u);
    if t.day == DaysInMonth(t.year, t.month) {
      if t.month < 12 {
        assert u.month + 13 * u.year >= t.month + 1 + 13 * t.year;
      } else {
        assert u.year >= t.year + 1;
      }
    }
  }

  /** When e is on s's day or not at midnight, the midnight after e is the
      earliest midnight after s's day that is not before e: any later
      midnight m is no earlier. */
  lemma NextMidnightBounds(s: DateTime, e: DateTime, m: DateTime)
    requires Valid(s) && Valid(e) && AtOrBefore(s, e)
    requires !(e.year == 9999 && e.month == 12 && e.day == 31)
    requires Valid(m) && AtMidnight(m) && DayBefore(s, m) && AtOrBefore(e, m)
    requires SameDay(s, e) || !AtMidnight(e)
    ensures var d := DateOf(NextDay(e));
      Valid(d) && AtMidnight(d) && DayBefore(s, d) && AtOrBefore(e, d) && AtOrBefore(d, m)
  {
    NextDayStaysValid(e);
    NextDayAdvancesOneDay(e);
    var d := DateOf(NextDay(e));
    OrderIsLexicographic(s, e);
    OrderIsLexicographic(e, m);
    assert DayBefore(e, m) by {
      if SameDay(s, e) {
        OrderIsLexicographic(s, m);
      }
    }
    NextDayIsNext(e, m);
    OrderIsLexicographic(d, m);
    OrderIsLexicographic(e, d);
    OrderIsLexicographic(s, d);
  }

  /** Repeated `+= timedelta(days=1)`. */
  function AddDays(t: DateTime, n: nat): DateTime
  {
    if n == 0 then t else NextDay(AddDays(t, n - 1))
  }

  /** Stepping once and then n times is stepping n + 1 times. */
  lemma {:induction false} AddDaysFront(t: DateTime, n: nat)
    ensures AddDays(NextDay(t), n) == AddDays(t, n + 1)
  {
    if n > 0 {
      AddDaysFront(t, n - 1);
    }
  }

  /** Stepping n days is stepping once and then n - 1 times. */
  lemma AddDaysBack(t: DateTime, n: nat)
    requires n > 0
    ensures AddDays(NextDay(t), n - 1) == AddDays(t, n)
  {
    AddDaysFront(t, n - 1);
  }

  /** Seconds since midnight. */
  function TimeOfDay(t: DateTime): int
  {
    3600 * t.hour + 60 * t.minute + t.second
  }

  /** A month ends no later than where a later month begins. */
  lemma {:induction false} MonthsAscend(y: int, m: int, n: int)
    requires 1 <= m < n <= 13
    ensures DaysBeforeMonth(y, m) + DaysInMonth(y, m) <= DaysBeforeMonth(y, n)
    decreases n
  {
    if m < n - 1 {
      MonthsAscend(y, m, n - 1);
    }
  }

  /** A year ends no later than where a later year begins. */
  lemma {:induction false} YearsAscend(y: int, z: int)
    requires 1 <= y < z
    ensures DaysBeforeYear(y) + DaysInYear(y) <= DaysBeforeYear(z)
    decreases z - y
  {
    DaysBeforeYearStep(y);
    if y + 1 < z {
      YearsAscend(y + 1, z);
    }
  }

  /** A valid date's day number falls within its year. */
  lemma DayWithinYear(t: DateTime)
    requires Valid(t)
    ensures 1 <= DayNumber(t) - DaysBeforeYear(t.year) <= DaysInYear(t.year)
  {
    if t.month > 1 {
      MonthsAscend(t.year, 1, t.month);
    }
    if t.month < 12 {
      MonthsAscend(t.year, t.month, 13);
    }
  }

  /** Day numbers order calendar days. */
  lemma DayNumberOrder(a: DateTime, b: DateTime)
    requires Valid(a) && Valid(b)
    ensures DayBefore(a, b) <==> DayNumber(a) < DayNumber(b)
    ensures SameDay(a, b) <==> DayNumber(a) == DayNumber(b)
  {
    OrderIsLexicographic(a, b);
    OrderIsLexicographic(b, a);
    DayWithinYear(a);
    DayWithinYear(b);
    if a.year < b.year {
      YearsAscend(a.year, b.year);
    } else if b.year < a.year {
      YearsAscend(b.year, a.year);
    } else if a.month < b.month {
      MonthsAscend(a.year, a.month, b.month);
    } else if b.month < a.month {
      MonthsAscend(a.year, b.month, a.month);
    }
  }

  // ---------------------------------------------------------------------
  // Day of year (`%j`)
  // ---------------------------------------------------------------------

  /** Month and day of the doy-th day counted from month m of year y. */
  function MonthAndDay(y: int, m: int, doy: int): (r: (int, int))
    requires 1 <= m <= 12 && 1 <= doy
    requires doy <= DaysInYear(y) - DaysBeforeMonth(y, m)
    ensures m <= r.0 <= 12
    ensures 1 <= r.1 <= DaysInMonth(y, r.0)
    ensures DaysBeforeMonth(y, r.0) + r.1 == DaysBeforeMonth(y, m) + doy
    decreases 12 - m
  {
    if doy <= DaysInMonth(y, m) || m == 12 then (m, doy)
    else MonthAndDay(y, m + 1, doy - DaysInMonth(y, m))
  }

  /** `datetime.strptime(YYYY + JJJ, '%Y%j')`: day `doy` of year y, where day
      366 of a common year is 1 January of the next year. */
  function FromDayOfYear(y: nat, doy: int): (t: DateTime)
    requires 1 <= doy <= 366
    ensures AtMidnight(t)
  {
    if doy <= DaysInYear(y) then
      var md := MonthAndDay(y, 1, doy);
      DateTime(y, md.0, md.1, 0, 0, 0)
    else DateTime(y + 1, 1, 1, 0, 0, 0)
  }

  /** The converted day is exactly doy - 1 days after 1 January. */
  lemma FromDayOfYearNumber(y: nat, doy: int)
    requires 1 <= y && 1 <= doy <= 366
    ensures 1 <= FromDayOfYear(y, doy).month <= 12
    ensures DayNumber(FromDayOfYear(y, doy)) == DayNumber(DateTime(y, 1, 1, 0, 0, 0)) + doy - 1
    ensures doy <= DaysInYear(y) ==> FromDayOfYear(y, doy).year == y
  {
    if doy > DaysInYear(y) {
      DaysBeforeYearStep(y);
    }
  }

  // ---------------------------------------------------------------------
  // strftime on the formats the code writes
  // ---------------------------------------------------------------------

  /** `t.strftime('%Y%m%d')`. */
  function Compact(t: DateTime): string
  {
    Pad(t.year, 4) + Pad(t.month, 2) + Pad(t.day, 2)
  }

  /** `t.strftime('%Y-%m-%d')`. */
  function IsoDate(t: DateTime): string
  {
    Pad(t.year, 4) + "-" + Pad(t.month, 2) + "-" + Pad(t.day, 2)
  }

  /** `t.isoformat()` of a datetime without microseconds:
      `YYYY-MM-DDTHH:MM:SS`. */
  function IsoFormat(t: DateTime): string
  {
    IsoDate(t) + "T" + Pad(t.hour, 2) + ":" + Pad(t.minute, 2) + ":" + Pad(t.second, 2)
  }

  // ---------------------------------------------------------------------
  // The day list
  // ---------------------------------------------------------------------

  /** A list prefix put in front of a successful result. */
  function Extend(prefix: seq<string>, r: Result<seq<string>>): Result<seq<string>>
  {
    if r.Ok? then Ok(prefix + r.value) else r
  }

  /** `%Y%m%d` of every day from s on, stepping a day at a time while the
      stepped value is not after e. The step past 9999-12-31 is an
      OverflowError. */
  function Days(s: DateTime, e: DateTime): Result<seq<string>>
    requires Valid(s)
    decreases Stamp(e) - Stamp(s)
  {
    if !AtOrBefore(s, e) then Ok([])
    else if !Valid(NextDay(s)) then Err(OverflowError)
    else
      NextDayAdvancesOneDay(s);
      Extend([Compact(s)], Days(NextDay(s), e))
  }

  /** r lists the days s, s + 1 day, ... up to the last one not after e,
      all valid, and the day after the last is after e. */
  predicate DayRun(s: DateTime, e: DateTime, r: seq<string>)
  {
    (forall k {:trigger r[k]} :: 0 <= k < |r| ==> r[k] == Compact(AddDays(s, k))) &&
    (forall k {:trigger AtOrBefore(AddDays(s, k), e)} :: 0 <= k < |r| ==> AtOrBefore(AddDays(s, k), e)) &&
    (forall k {:trigger Valid(AddDays(s, k))} :: 0 <= k <= |r| ==> Valid(AddDays(s, k))) &&
    !AtOrBefore(AddDays(s, |r|), e)
  }

  /** A successful day list holds the days s, s + 1 day, ... up to the last
      one not after e, all valid, and the day after the last is after e. */
  lemma {:induction false} DaysContents(s: DateTime, e: DateTime)
    requires Valid(s) && Days(s, e).Ok?
    ensures DayRun(s, e, Days(s, e).value)
    decreases Stamp(e) - Stamp(s)
  {
    if AtOrBefore(s, e) {
      NextDayAdvancesOneDay(s);
      DaysContents(NextDay(s), e);
      DayRunFront(s, e, Days(NextDay(s), e).value);
    }
  }

  /** A run from the next day, with s in front, is a run from s. */
  lemma DayRunFront(s: DateTime, e: DateTime, rest: seq<string>)
    requires Valid(s) && AtOrBefore(s, e)
    requires DayRun(NextDay(s), e, rest)
    ensures DayRun(s, e, [Compact(s)] + rest)
  {
    TextsFront(Compact, s, rest, [Compact(s)] + rest);
    BeforeFront(s, e, |rest|);
    ValidFront(s, |rest|);
    AddDaysFront(s, |rest|);
  }

  /** The texts of the days from the next day, with s's text in front, are
      the texts of the days from s. */
  lemma TextsFront(text: DateTime -> string, s: DateTime, rest: seq<string>, r: seq<string>)
    requires r == [text(s)] + rest
    requires forall k {:trigger rest[k]} :: 0 <= k < |rest| ==> rest[k] == text(AddDays(NextDay(s), k))
    ensures forall k {:trigger r[k]} :: 0 <= k < |r| ==> r[k] == text(AddDays(s, k))
  {
    forall k | 0 < k < |r|
      ensures r[k] == text(AddDays(s, k))
    {
      AddDaysBack(s, k);
      assert r[k] == rest[k - 1];
    }
  }

  lemma BeforeFront(s: DateTime, e: DateTime, m: nat)
    requires AtOrBefore(s, e)
    requires forall k {:trigger AtOrBefore(AddDays(NextDay(s), k), e)} :: 0 <= k < m ==> AtOrBefore(AddDays(NextDay(s), k), e)
    ensures forall k {:trigger AtOrBefore(AddDays(s, k), e)} :: 0 <= k < m + 1 ==> AtOrBefore(AddDays(s, k), e)
  {
    forall k | 0 < k < m + 1
      ensures AtOrBefore(AddDays(s, k), e)
    {
      AddDaysBack(s, k);
    }
  }

  lemma ValidFront(s: DateTime, m: nat)
    requires Valid(s)
    requires forall k {:trigger Valid(AddDays(NextDay(s), k))} :: 0 <= k <= m ==> Valid(AddDays(NextDay(s), k))
    ensures forall k {:trigger Valid(AddDays(s, k))} :: 0 <= k <= m + 1 ==> Valid(AddDays(s, k))
  {
    forall k | 0 < k <= m + 1
      ensures Valid(AddDays(s, k))
    {
      AddDaysBack(s, k);
    }
  }

  /** The day list fails, with OverflowError, exactly when the loop reaches
      9999-12-31 without passing e: when e lies on that day at or after the
      start's time of day (and s is not after e). */
  lemma {:induction false} DaysOverflow(s: DateTime, e: DateTime)
    requires Valid(s) && Valid(e)
    ensures Days(s, e).Err? <==>
      AtOrBefore(s, e) && e.year == 9999 && e.month == 12 && e.day == 31 && TimeOfDay(s) <= TimeOfDay(e)
    ensures Days(s, e).Err? ==> Days(s, e).error == OverflowError
    decreases Stamp(e) - Stamp(s)
  {
    if AtOrBefore(s, e) {
      if Valid(NextDay(s)) {
        NextDayAdvancesOneDay(s);
        DaysOverflow(NextDay(s), e);
        StepKeepsOverflow(s, e);
      } else {
        LastDayOverflow(s, e);
      }
    }
  }

  /** Stepping s a day keeps the overflow condition as it was. */
  lemma StepKeepsOverflow(s: DateTime, e: DateTime)
    requires Valid(s) && Valid(e) && AtOrBefore(s, e) && Valid(NextDay(s))
    ensures (AtOrBefore(NextDay(s), e) && e.year == 9999 && e.month == 12 && e.day == 31 &&
        TimeOfDay(NextDay(s)) <= TimeOfDay(e)) <==>
      (e.year == 9999 && e.month == 12 && e.day == 31 && TimeOfDay(s) <= TimeOfDay(e))
  {
    NextDayAdvancesOneDay(s);
    if e.year == 9999 && e.month == 12 && e.day == 31 {
      OrderIsLexicographic(NextDay(s), e);
    }
  }

  /** A start on 9999-12-31 not after e puts e on that day, no earlier in
      the day. */
  lemma LastDayOverflow(s: DateTime, e: DateTime)
    requires Valid(s) && Valid(e) && AtOrBefore(s, e) && !Valid(NextDay(s))
    ensures e.year == 9999 && e.month == 12 && e.day == 31 && TimeOfDay(s) <= TimeOfDay(e)
  {
    NextDayStaysValid(s);
    OrderIsLexicographic(s, e);
  }
}
