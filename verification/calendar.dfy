/** Proleptic Gregorian calendar with the range and arithmetic of Python's `datetime`:
    years 1 through 9999, day ordinals counted from 0001-01-01 = 1, and the spreadsheet
    serial-day conversion `datetime(1899, 12, 30) + timedelta(days=n)` used by the
    update handlers (azurefn/function_app.py and azurefn/update_excel_http/function_app.py). */
module Calendar {
  import opened Wrappers

  datatype Date = Date(year: int, month: int, day: int)

  predicate IsLeapYear(y: int) {
    y % 4 == 0 && (y % 100 != 0 || y % 400 == 0)
  }

  function DaysInYear(y: int): int {
    if IsLeapYear(y) then 366 else 365
  }

  function DaysInMonth(y: int, m: int): int
    requires 1 <= m <= 12
  {
    if m == 2 then (if IsLeapYear(y) then 29 else 28)
    else if m == 4 || m == 6 || m == 9 || m == 11 then 30
    else 31
  }

  /** Days of year `y` that precede the first of month `m`. */
  function DaysBeforeMonth(y: int, m: int): int
    requires 1 <= m <= 12
  {
    var base := [0, 31, 59, 90, 120, 151, 181, 212, 243, 273, 304, 334][m - 1];
    if m > 2 && IsLeapYear(y) then base + 1 else base
  }

  /** Days from 0001-01-01 to the first day of year `y`. */
  function DaysBeforeYear(y: int): int {
    var p := y - 1;
    p * 365 + p / 4 - p / 100 + p / 400
  }

  /** A real calendar day; `datetime` additionally bounds the year by `MaxYear`. */
  predicate ValidDate(d: Date) {
    1 <= d.year && 1 <= d.month <= 12 && 1 <= d.day <= DaysInMonth(d.year, d.month)
  }

  predicate InDatetimeRange(d: Date) {
    ValidDate(d) && d.year <= MaxYear
  }

  /** Python's `date.toordinal()`. */
  function ToOrdinal(d: Date): int
    requires 1 <= d.month <= 12
  {
    DaysBeforeYear(d.year) + DaysBeforeMonth(d.year, d.month) + d.day
  }

  const MaxYear := 9999
  /** Ordinal of 9999-12-31, the last day `datetime` can represent. */
  const MaxOrdinal := 3652059

  /** The month in which the 0-based day-of-year `doy` falls, searching from month `m`. */
  function MonthOf(y: int, doy: int, m: int): (r: int)
    requires 1 <= m <= 12
    requires DaysBeforeMonth(y, m) <= doy < DaysInYear(y)
    ensures m <= r <= 12
    ensures DaysBeforeMonth(y, r) <= doy < DaysBeforeMonth(y, r) + DaysInMonth(y, r)
    decreases 12 - m
  {
    if doy < DaysBeforeMonth(y, m) + DaysInMonth(y, m) || m == 12 then m
    else MonthOf(y, doy, m + 1)
  }

  /** Python's `date.fromordinal(n)`: the 400/100/4/1-year cycle decomposition of
      `n - 1`, with the last day of a 4-year or 400-year cycle handled apart. */
  function FromOrdinal(n: int): (d: Date)
    requires 1 <= n <= MaxOrdinal
    ensures InDatetimeRange(d)
    ensures ToOrdinal(d) == n
  {
    var k := n - 1;
    var n400 := k / 146097;
    var r400 := k % 146097;
    var n100 := r400 / 36524;
    var r100 := r400 % 36524;
    var n4 := r100 / 1461;
    var r4 := r100 % 1461;
    var n1 := r4 / 365;
    var r1 := r4 % 365;
    var year := n400 * 400 + n100 * 100 + n4 * 4 + n1 + 1;
    CycleDigits(k, n400, r400, n100, r100, n4, r4, n1, r1);
    if n1 == 4 || n100 == 4 then
      LastDayOfCycle(n400, n100, n4, n1, r1, k);
      Date(year - 1, 12, 31)
    else
      NormalDay(n400, n100, n4, n1, r1, k);
      DayOfYear(year, r1)
  }

  /** The date of the 0-based day `doy` of year `y`. */
  function DayOfYear(y: int, doy: int): (d: Date)
    requires 1 <= y <= MaxYear && 0 <= doy < DaysInYear(y)
    ensures InDatetimeRange(d) && d.year == y
    ensures ToOrdinal(d) == DaysBeforeYear(y) + doy + 1
  {
    var m := MonthOf(y, doy, 1);
    Date(y, m, doy - DaysBeforeMonth(y, m) + 1)
  }

  /** The digits of `k` in the mixed radix 146097 / 36524 / 1461 / 365 that `date.fromordinal` uses. */
  lemma CycleDigits(k: int, n400: int, r400: int, n100: int, r100: int, n4: int, r4: int, n1: int, r1: int)
    requires 0 <= k < MaxOrdinal
    requires n400 == k / 146097 && r400 == k % 146097
    requires n100 == r400 / 36524 && r100 == r400 % 36524
    requires n4 == r100 / 1461 && r4 == r100 % 1461
    requires n1 == r4 / 365 && r1 == r4 % 365
    ensures 0 <= n400 && 0 <= n100 <= 4 && 0 <= n4 <= 24 && 0 <= n1 <= 4 && 0 <= r1 < 365
    ensures k == n400 * 146097 + n100 * 36524 + n4 * 1461 + n1 * 365 + r1
    ensures n100 < 4 ==> n4 * 1461 + n1 * 365 + r1 < 36524
    ensures n100 == 4 ==> n4 == 0 && n1 == 0 && r1 == 0
    ensures n1 == 4 ==> r1 == 0
  {
    assert r400 == n100 * 36524 + r100;
    assert r100 == n4 * 1461 + r4;
    assert r4 == n1 * 365 + r1;
  }

  /** The day that ends a 4-year or a 400-year cycle is December 31 of a leap year. */
  lemma LastDayOfCycle(a: int, b: int, c: int, d: int, r1: int, k: int)
    requires 0 <= a && 0 <= b <= 4 && 0 <= c <= 24 && 0 <= d <= 4 && 0 <= r1 < 365
    requires k == a * 146097 + b * 36524 + c * 1461 + d * 365 + r1
    requires b < 4 ==> c * 1461 + d * 365 + r1 < 36524
    requires b == 4 ==> c == 0 && d == 0 && r1 == 0
    requires d == 4 ==> r1 == 0
    requires d == 4 || b == 4
    requires k < MaxOrdinal
    ensures var y := a * 400 + b * 100 + c * 4 + d;
      1 <= y <= MaxYear && IsLeapYear(y) && ToOrdinal(Date(y, 12, 31)) == k + 1
  {
    var y := a * 400 + b * 100 + c * 4 + d;
    var p := y - 1;
    if b == 4 {
      assert y == 400 * (a + 1);
      assert p / 4 == 100 * a + 99;
      assert p / 100 == 4 * a + 3;
      assert p / 400 == a;
    } else {
      assert c <= 23;
      assert y == 4 * (100 * a + 25 * b + c + 1);
      assert y % 100 != 0;
      assert p / 4 == 100 * a + 25 * b + c;
      assert p / 100 == 4 * a + b;
      assert p / 400 == a;
    }
  }

  /** Any other day: the cycle counts give the year, and the remainder is its 0-based day. */
  lemma NormalDay(a: int, b: int, c: int, d: int, r1: int, k: int)
    requires 0 <= a && 0 <= b <= 3 && 0 <= c <= 24 && 0 <= d <= 3 && 0 <= r1 < 365
    requires k == a * 146097 + b * 36524 + c * 1461 + d * 365 + r1
    requires c * 1461 + d * 365 + r1 < 36524
    requires k < MaxOrdinal
    ensures var y := a * 400 + b * 100 + c * 4 + d + 1;
      1 <= y <= MaxYear && r1 < DaysInYear(y) && DaysBeforeYear(y) == k - r1
  {
    var y := a * 400 + b * 100 + c * 4 + d + 1;
    var p := y - 1;
    var q4 := a * 100 + b * 25 + c;
    var q100 := a * 4 + b;
    assert p == 4 * q4 + d;
    assert p / 4 == q4;
    assert p == 100 * q100 + (c * 4 + d) && c * 4 + d < 100;
    assert p / 100 == q100;
    assert p == 400 * a + (b * 100 + c * 4 + d) && b * 100 + c * 4 + d < 400;
    assert p / 400 == a;
    assert DaysBeforeYear(y) == k - r1;
    assert DaysBeforeYear(MaxYear + 1) == MaxOrdinal;
    if y > MaxYear {
      DaysBeforeYearMonotone(MaxYear + 1, y);
    }
  }

  lemma YearStep(y: int)
    requires y >= 1
    ensures DaysBeforeYear(y + 1) == DaysBeforeYear(y) + DaysInYear(y)
  {
    QuotientStep4(y);
    QuotientStep100(y);
    QuotientStep400(y);
    DivisorsNest(y);
    var s4, s100, s400 := y / 4 - (y - 1) / 4, y / 100 - (y - 1) / 100, y / 400 - (y - 1) / 400;
    assert DaysBeforeYear(y + 1) - DaysBeforeYear(y) == 365 + s4 - s100 + s400;
    assert 365 + s4 - s100 + s400 == DaysInYear(y);
  }

  /** Multiples of 400 are multiples of 100, which are multiples of 4. */
  lemma DivisorsNest(y: int)
    ensures y % 400 == 0 ==> y % 100 == 0
    ensures y % 100 == 0 ==> y % 4 == 0
  {
    if y % 400 == 0 {
      MultipleOf(100, 4 * (y / 400), y);
    }
    if y % 100 == 0 {
      MultipleOf(4, 25 * (y / 100), y);
    }
  }

  lemma MultipleOf(m: int, k: int, y: int)
    requires m in {4, 100} && y == m * k
    ensures y % m == 0
  {
    if m == 4 {
      assert y == 4 * k;
    } else {
      assert y == 100 * k;
    }
  }

  /** `y / 4` moves on from `(y - 1) / 4` by one exactly at multiples of 4; likewise for
      100 and 400. */
  lemma QuotientStep4(y: int)
    ensures y / 4 == (y - 1) / 4 + (if y % 4 == 0 then 1 else 0)
  {
    var q, r := (y - 1) / 4, (y - 1) % 4;
    assert y - 1 == 4 * q + r && 0 <= r < 4;
    if r == 3 { assert y == 4 * (q + 1); } else { assert y == 4 * q + (r + 1); }
  }

  lemma QuotientStep100(y: int)
    ensures y / 100 == (y - 1) / 100 + (if y % 100 == 0 then 1 else 0)
  {
    var q, r := (y - 1) / 100, (y - 1) % 100;
    assert y - 1 == 100 * q + r && 0 <= r < 100;
    if r == 99 { assert y == 100 * (q + 1); } else { assert y == 100 * q + (r + 1); }
  }

  lemma QuotientStep400(y: int)
    ensures y / 400 == (y - 1) / 400 + (if y % 400 == 0 then 1 else 0)
  {
    var q, r := (y - 1) / 400, (y - 1) % 400;
    assert y - 1 == 400 * q + r && 0 <= r < 400;
    if r == 399 { assert y == 400 * (q + 1); } else { assert y == 400 * q + (r + 1); }
  }

  lemma {:induction false} DaysBeforeYearMonotone(y1: int, y2: int)
    requires 1 <= y1 <= y2
    ensures DaysBeforeYear(y1) + 365 * (y2 - y1) <= DaysBeforeYear(y2)
    decreases y2 - y1
  {
    if y1 < y2 {
      DaysBeforeYearMonotone(y1, y2 - 1);
      YearStep(y2 - 1);
    }
  }

  /** A valid date's ordinal lies within its own year. */
  lemma OrdinalWithinYear(d: Date)
    requires ValidDate(d)
    ensures DaysBeforeYear(d.year) < ToOrdinal(d) <= DaysBeforeYear(d.year + 1)
  {
    YearStep(d.year);
  }

  /** The calendar day after `d`. */
  function NextDay(d: Date): Date
    requires 1 <= d.month <= 12
  {
    if d.day < DaysInMonth(d.year, d.month) then Date(d.year, d.month, d.day + 1)
    else if d.month < 12 then Date(d.year, d.month + 1, 1)
    else Date(d.year + 1, 1, 1)
  }

  /** `toordinal` counts days: 0001-01-01 is day 1 and each day is one more than the
      day before it. */
  lemma ToOrdinalCounts(d: Date)
    requires ValidDate(d)
    ensures ToOrdinal(Date(1, 1, 1)) == 1
    ensures ValidDate(NextDay(d)) && ToOrdinal(NextDay(d)) == ToOrdinal(d) + 1
  {
    assert DaysBeforeYear(1) == 0;
    var y, m := d.year, d.month;
    var before := DaysBeforeYear(y) + DaysBeforeMonth(y, m);
    assert ToOrdinal(d) == before + d.day;
    if d.day < DaysInMonth(y, m) {
      assert NextDay(d) == Date(y, m, d.day + 1);
      assert ToOrdinal(NextDay(d)) == ToOrdinal(d) + 1;
    } else if m < 12 {
      assert NextDay(d) == Date(y, m + 1, 1);
      MonthStep(y, m);
      assert DaysInMonth(y, m + 1) >= 1;
      assert ToOrdinal(NextDay(d)) == ToOrdinal(d) + 1;
    } else {
      assert NextDay(d) == Date(y + 1, 1, 1);
      YearStep(y);
      assert d.day == 31;
      assert DaysBeforeMonth(y, 12) + 31 == DaysInYear(y);
      assert DaysBeforeMonth(y + 1, 1) == 0 && DaysInMonth(y + 1, 1) == 31;
      assert ToOrdinal(Date(y + 1, 1, 1)) == DaysBeforeYear(y + 1) + 1;
      assert ToOrdinal(NextDay(d)) == ToOrdinal(d) + 1;
    }
  }

  lemma MonthStep(y: int, m: int)
    requires 1 <= m < 12
    ensures DaysBeforeMonth(y, m + 1) == DaysBeforeMonth(y, m) + DaysInMonth(y, m)
  {
  }

  /** Distinct valid dates have distinct ordinals. */
  lemma OrdinalInjective(d1: Date, d2: Date)
    requires ValidDate(d1) && ValidDate(d2)
    requires ToOrdinal(d1) == ToOrdinal(d2)
    ensures d1 == d2
  {
    OrdinalWithinYear(d1);
    OrdinalWithinYear(d2);
    if d1.year < d2.year {
      DaysBeforeYearMonotone(d1.year + 1, d2.year);
      assert false;
    } else if d2.year < d1.year {
      DaysBeforeYearMonotone(d2.year + 1, d1.year);
      assert false;
    }
    assert d1.month == d2.month by {
      if d1.month != d2.month {
        MonthsApart(d1.year, d1.month, d1.day, d2.month, d2.day);
      }
    }
  }

  lemma MonthsApart(y: int, m1: int, day1: int, m2: int, day2: int)
    requires 1 <= m1 <= 12 && 1 <= m2 <= 12 && m1 != m2
    requires 1 <= day1 <= DaysInMonth(y, m1) && 1 <= day2 <= DaysInMonth(y, m2)
    ensures DaysBeforeMonth(y, m1) + day1 != DaysBeforeMonth(y, m2) + day2
  {
  }

  /** Every date `datetime` can hold has an ordinal in range, and `FromOrdinal` gives it back. */
  lemma {:induction false} FromOrdinalOfToOrdinal(d: Date)
    requires InDatetimeRange(d)
    ensures 1 <= ToOrdinal(d) <= MaxOrdinal
    ensures FromOrdinal(ToOrdinal(d)) == d
  {
    OrdinalWithinYear(d);
    DaysBeforeYearMonotone(d.year + 1, MaxYear + 1);
    assert DaysBeforeYear(MaxYear + 1) == MaxOrdinal;
    assert DaysBeforeYear(d.year) >= 0;
    OrdinalInjective(FromOrdinal(ToOrdinal(d)), d);
  }

  /** The fixed epoch the handlers add serial day counts to. */
  const Epoch := Date(1899, 12, 30)

  /** `datetime(1899, 12, 30) + timedelta(days=n)`; None where Python raises
      OverflowError because the result falls outside years 1 to 9999. */
  function SerialToDate(n: int): (r: Option<Date>)
    ensures r.Some? ==> InDatetimeRange(r.value) && ToOrdinal(r.value) == ToOrdinal(Epoch) + n
    ensures r.None? <==> !(1 <= ToOrdinal(Epoch) + n <= MaxOrdinal)
  {
    var o := ToOrdinal(Epoch) + n;
    if 1 <= o <= MaxOrdinal then Some(FromOrdinal(o)) else None
  }

  /** Every representable date is reached by exactly one serial: its day distance from the epoch. */
  lemma {:induction false} SerialToDateComplete(d: Date)
    requires InDatetimeRange(d)
    ensures SerialToDate(ToOrdinal(d) - ToOrdinal(Epoch)) == Some(d)
  {
    FromOrdinalOfToOrdinal(d);
  }

  /** Serial n denotes date d exactly when d lies n days after the epoch. */
  lemma {:induction false} SerialToDateCharacterized(n: int, d: Date)
    requires InDatetimeRange(d)
    ensures SerialToDate(n) == Some(d) <==> ToOrdinal(d) - ToOrdinal(Epoch) == n
  {
    if ToOrdinal(d) - ToOrdinal(Epoch) == n {
      SerialToDateComplete(d);
    }
  }

  /** Calibration points, one per lemma: 0 is the epoch itself and 1 is 1899-12-31 (a
      spreadsheet's 1900 date system calls serial 1 1900-01-01; the two agree only from
      serial 61 on). */
  lemma SerialCalibrationZero()
    ensures SerialToDate(0) == Some(Epoch)
  {
    CalibrationPoint(0, Epoch);
  }

  lemma SerialCalibrationOne()
    ensures SerialToDate(1) == Some(Date(1899, 12, 31))
  {
    CalibrationPoint(1, Date(1899, 12, 31));
  }

  /** 36526 is 2000-01-01. */
  lemma SerialCalibration2000()
    ensures SerialToDate(36526) == Some(Date(2000, 1, 1))
  {
    CalibrationPoint(36526, Date(2000, 1, 1));
  }

  /** 44927 is 2023-01-01. */
  lemma SerialCalibration2023()
    ensures SerialToDate(44927) == Some(Date(2023, 1, 1))
  {
    CalibrationPoint(44927, Date(2023, 1, 1));
  }

  /** 44926 is 2022-12-31, the day before 2023 starts. */
  lemma SerialCalibrationYearEnd()
    ensures SerialToDate(44926) == Some(Date(2022, 12, 31))
  {
    CalibrationPoint(44926, Date(2022, 12, 31));
  }

  /** 2023-01-15 is serial 44941. */
  lemma SerialCalibrationMidJanuary()
    ensures SerialToDate(44941) == Some(Date(2023, 1, 15))
  {
    CalibrationPoint(44941, Date(2023, 1, 15));
  }

  /** A valid date whose ordinal is `n` past the epoch's is serial `n`. */
  lemma CalibrationPoint(n: int, d: Date)
    requires InDatetimeRange(d) && ToOrdinal(d) == 693594 + n
    ensures SerialToDate(n) == Some(d)
  {
    assert ToOrdinal(Epoch) == 693594;
    SerialToDateComplete(d);
  }

  /** The serials `datetime` can add to the epoch are exactly -693593 through 2958465. */
  lemma SerialRange(n: int)
    ensures SerialToDate(n).Some? <==> -693593 <= n <= 2958465
  {
    assert ToOrdinal(Epoch) == 693594;
  }
}
