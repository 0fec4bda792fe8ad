/**
 * The proleptic Gregorian calendar over day numbers counted from 1970-01-01,
 * the epoch of pandas Timestamps, and the ISO 8601 full-date text
 * (YYYY-MM-DD) that `date.isoformat()` produces.
 */
module Calendar {
  import opened Wrappers
  import opened Digits

  /** First and last calendar day a pandas Timestamp can hold (1677-09-21 and 2262-04-11). */
  const MinDay: int := -106752
  const MaxDay: int := 106751

  /** A calendar day inside the span of pandas Timestamps. */
  type Day = d: int | MinDay <= d <= MaxDay

  predicate IsLeapYear(y: int) {
    y % 4 == 0 && (y % 100 != 0 || y % 400 == 0)
  }

  function YearLength(y: int): int {
    if IsLeapYear(y) then 366 else 365
  }

  function MonthLength(y: int, m: int): int
    requires 1 <= m <= 12
  {
    if m == 2 then (if IsLeapYear(y) then 29 else 28)
    else if m == 4 || m == 6 || m == 9 || m == 11 then 30
    else 31
  }

  /** Day number of January 1 of year y. */
  function YearStart(y: int): int
    decreases if y >= 1970 then y - 1970 else 1970 - y
  {
    if y == 1970 then 0
    else if y > 1970 then YearStart(y - 1) + YearLength(y - 1)
    else YearStart(y + 1) - YearLength(y)
  }

  /** Days from January 1 to the first day of month m. */
  function MonthStart(y: int, m: int): int
    requires 1 <= m <= 12
  {
    if m == 1 then 0 else MonthStart(y, m - 1) + MonthLength(y, m - 1)
  }

  datatype Date = Date(year: int, month: int, day: int)

  predicate ValidDate(d: Date) {
    1 <= d.month <= 12 && 1 <= d.day <= MonthLength(d.year, d.month)
  }

  /** The day number of a calendar date. */
  function DayNumber(d: Date): int
    requires ValidDate(d)
  {
    YearStart(d.year) + MonthStart(d.year, d.month) + d.day - 1
  }

  lemma YearStartStep(y: int)
    ensures YearStart(y + 1) == YearStart(y) + YearLength(y)
  {
  }

  /** Year starts grow by at least a common year per year. */
  lemma {:induction false} YearStartMonotone(y: int, z: int)
    requires y < z
    ensures YearStart(y) + YearLength(y) <= YearStart(z)
    decreases z - y
  {
    YearStartStep(y);
    if y + 1 < z {
      YearStartMonotone(y + 1, z);
    }
  }

  lemma MonthsFillYear(y: int)
    ensures MonthStart(y, 12) + MonthLength(y, 12) == YearLength(y)
  {
    assert MonthStart(y, 2) == 31;
    assert MonthStart(y, 3) == 31 + MonthLength(y, 2);
    assert MonthStart(y, 4) == MonthStart(y, 3) + 31;
    assert MonthStart(y, 5) == MonthStart(y, 4) + 30;
    assert MonthStart(y, 6) == MonthStart(y, 5) + 31;
    assert MonthStart(y, 7) == MonthStart(y, 6) + 30;
    assert MonthStart(y, 8) == MonthStart(y, 7) + 31;
    assert MonthStart(y, 9) == MonthStart(y, 8) + 31;
    assert MonthStart(y, 10) == MonthStart(y, 9) + 30;
    assert MonthStart(y, 11) == MonthStart(y, 10) + 31;
    assert MonthStart(y, 12) == MonthStart(y, 11) + 30;
  }

  /** Months of a year follow each other without gaps or overlaps. */
  lemma {:induction false} MonthStartMonotone(y: int, m: int, k: int)
    requires 1 <= m < k <= 12
    ensures MonthStart(y, m) + MonthLength(y, m) <= MonthStart(y, k)
    decreases k - m
  {
    if m + 1 < k {
      MonthStartMonotone(y, m + 1, k);
    }
  }

  lemma MonthInsideYear(y: int, m: int)
    requires 1 <= m <= 12
    ensures 0 <= MonthStart(y, m)
    ensures MonthStart(y, m) + MonthLength(y, m) <= YearLength(y)
  {
    MonthsFillYear(y);
    if m < 12 {
      MonthStartMonotone(y, m, 12);
    }
    if 1 < m {
      MonthStartMonotone(y, 1, m);
    }
  }

  /** The year containing day n, searching upwards from year y. */
  function YearUpFrom(n: int, y: int): (r: int)
    requires YearStart(y) <= n
    ensures YearStart(r) <= n < YearStart(r) + YearLength(r)
    decreases n - YearStart(y)
  {
    if n < YearStart(y) + YearLength(y) then y
    else
      YearStartStep(y);
      YearUpFrom(n, y + 1)
  }

  /** The year containing day n, searching downwards from year y. */
  function YearDownFrom(n: int, y: int): (r: int)
    requires n < YearStart(y) + YearLength(y)
    ensures YearStart(r) <= n < YearStart(r) + YearLength(r)
    decreases YearStart(y) + YearLength(y) - n
  {
    if YearStart(y) <= n then y
    else
      YearStartStep(y - 1);
      YearDownFrom(n, y - 1)
  }

  /** The year containing day n. */
  function YearOf(n: int): (r: int)
    ensures YearStart(r) <= n < YearStart(r) + YearLength(r)
  {
    if n >= 0 then YearUpFrom(n, 1970)
    else
      YearStartStep(1969);
      YearDownFrom(n, 1969)
  }

  /** The month containing day-of-year doy (counted from 0), searching from month m. */
  function MonthFrom(y: int, doy: int, m: int): (r: int)
    requires 1 <= m <= 12 && MonthStart(y, m) <= doy < YearLength(y)
    ensures 1 <= r <= 12
    ensures MonthStart(y, r) <= doy < MonthStart(y, r) + MonthLength(y, r)
    decreases 12 - m
  {
    if m == 12 then
      MonthsFillYear(y);
      m
    else if doy < MonthStart(y, m) + MonthLength(y, m) then m
    else MonthFrom(y, doy, m + 1)
  }

  /** The calendar date of day number n. */
  function ToDate(n: int): (d: Date)
    ensures ValidDate(d) && DayNumber(d) == n
  {
    var y := YearOf(n);
    var m := MonthFrom(y, n - YearStart(y), 1);
    Date(y, m, n - YearStart(y) - MonthStart(y, m) + 1)
  }

  lemma YearUnique(y: int, z: int, n: int)
    requires YearStart(y) <= n < YearStart(y) + YearLength(y)
    requires YearStart(z) <= n < YearStart(z) + YearLength(z)
    ensures y == z
  {
    if y < z {
      YearStartMonotone(y, z);
    } else if z < y {
      YearStartMonotone(z, y);
    }
  }

  lemma MonthUnique(y: int, m: int, k: int, doy: int)
    requires 1 <= m <= 12 && 1 <= k <= 12
    requires MonthStart(y, m) <= doy < MonthStart(y, m) + MonthLength(y, m)
    requires MonthStart(y, k) <= doy < MonthStart(y, k) + MonthLength(y, k)
    ensures m == k
  {
    if m < k {
      MonthStartMonotone(y, m, k);
    } else if k < m {
      MonthStartMonotone(y, k, m);
    }
  }

  /** Day numbers and calendar dates are in one-to-one correspondence. */
  lemma ToDateOfDayNumber(d: Date)
    requires ValidDate(d)
    ensures ToDate(DayNumber(d)) == d
  {
    var n := DayNumber(d);
    MonthInsideYear(d.year, d.month);
    var r := ToDate(n);
    YearUnique(r.year, d.year, n);
    MonthUnique(d.year, r.month, d.month, n - YearStart(d.year));
  }

  /** The ISO 8601 calendar date text of a day: "YYYY-MM-DD", what `date.isoformat()` gives. */
  function IsoDate(n: Day): string {
    var d := ToDate(n);
    DayYearRange(n);
    Padded(d.year, 4) + "-" + Padded(d.month, 2) + "-" + Padded(d.day, 2)
  }

  /** The year of every Day has four digits. */
  lemma DayYearRange(n: Day)
    ensures 1677 <= ToDate(n).year <= 2262
  {
    var y := ToDate(n).year;
    YearStartClosedForm(1677);
    YearStartClosedForm(2263);
    if y < 1677 {
      YearStartMonotone(y, 1677);
    }
    if y > 2262 {
      YearStartMonotone(2262, y);
      YearStartStep(2262);
    }
  }

  /** Counts of leap years reduce the year-by-year sum to a formula. */
  lemma {:induction false} YearStartClosedForm(y: int)
    ensures YearStart(y) == 365 * (y - 1970) + (y - 1) / 4 - (y - 1) / 100 + (y - 1) / 400 - 477
    decreases if y >= 1970 then y - 1970 else 1970 - y
  {
    if y > 1970 {
      YearStartClosedForm(y - 1);
      LeapCountStep(y - 1);
    } else if y < 1970 {
      YearStartClosedForm(y + 1);
      LeapCountStep(y);
    }
  }

  /** One more year adds one leap day exactly when that year is a leap year. */
  lemma LeapCountStep(y: int)
    ensures (y / 4 - (y - 1) / 4) - (y / 100 - (y - 1) / 100) + (y / 400 - (y - 1) / 400)
            == YearLength(y) - 365
  {
    DivStep(y, 4);
    DivStep(y, 100);
    DivStep(y, 400);
  }

  lemma DivStep(y: int, k: int)
    requires k == 4 || k == 100 || k == 400
    ensures y / k - (y - 1) / k == if y % k == 0 then 1 else 0
  {
    var q, r := (y - 1) / k, (y - 1) % k;
    assert y - 1 == k * q + r && 0 <= r < k;
    if r == k - 1 {
      assert y == k * (q + 1);
    } else {
      assert y == k * q + (r + 1) && r + 1 < k;
    }
  }

  /** Reads "YYYY-MM-DD" back into a day number; None for any other text. */
  function ReadIsoDate(s: string): Option<int> {
    if |s| == 10 && s[4] == '-' && s[7] == '-'
       && (forall i :: 0 <= i < 10 && i != 4 && i != 7 ==> IsDigit(s[i]))
    then
      var d := Date(DigitsValue(s[..4]), DigitsValue(s[5..7]), DigitsValue(s[8..]));
      if ValidDate(d) then Some(DayNumber(d)) else None
    else None
  }

  lemma IsoShape(y: string, m: string, d: string)
    requires |y| == 4 && |m| == 2 && |d| == 2
    ensures var s := y + "-" + m + "-" + d;
      |s| == 10 && s[4] == '-' && s[7] == '-' && s[..4] == y && s[5..7] == m && s[8..] == d
      && forall i :: 0 <= i < 10 && i != 4 && i != 7 ==> s[i] in y + m + d
  {
    var s := y + "-" + m + "-" + d;
    assert s[..4] == y;
    assert s[5..7] == m;
    assert s[8..] == d;
    forall i | 0 <= i < 10 && i != 4 && i != 7
      ensures s[i] in y + m + d
    {
      if i < 4 { assert s[i] == (y + m + d)[i]; }
      else if i < 7 { assert s[i] == (y + m + d)[i - 1]; }
      else { assert s[i] == (y + m + d)[i - 2]; }
    }
  }

  /** The ISO text of a day has the YYYY-MM-DD shape and reads back as that day. */
  lemma IsoDateRoundTrip(n: Day)
    ensures |IsoDate(n)| == 10 && IsoDate(n)[4] == '-' && IsoDate(n)[7] == '-'
    ensures ReadIsoDate(IsoDate(n)) == Some(n)
  {
    var d := ToDate(n);
    DayYearRange(n);
    IsoShape(Padded(d.year, 4), Padded(d.month, 2), Padded(d.day, 2));
    PaddedValue(d.year, 4);
    PaddedValue(d.month, 2);
    PaddedValue(d.day, 2);
  }
}
