/**
 * Calendar helpers of the scheduler (src/utils/time.ts).  A `Date` is an
 * integer number of milliseconds since 1970-01-01T00:00:00Z; a calendar
 * date denotes the instant of its UTC midnight.
 */
module Time {
  import opened Wrappers
  import opened Strings

  const MsPerMinute: int := 60000
  const MinutesPerDay: int := 1440
  const MsPerDay: int := 86400000

  // ---------------------------------------------------------------------
  // Proleptic Gregorian calendar
  // ---------------------------------------------------------------------

  predicate IsLeapYear(y: int) {
    (y % 4 == 0 && y % 100 != 0) || y % 400 == 0
  }

  function DaysInMonth(y: int, m: int): (n: int)
    requires 1 <= m <= 12
    ensures 28 <= n <= 31
  {
    if m == 2 then (if IsLeapYear(y) then 29 else 28)
    else if m == 4 || m == 6 || m == 9 || m == 11 then 30
    else 31
  }

  predicate ValidDate(y: int, m: int, d: int) {
    1 <= m <= 12 && 1 <= d <= DaysInMonth(y, m)
  }

  /** Days of year `y` that precede the first of month `m`. */
  function DaysBeforeMonth(y: int, m: int): int
    requires 1 <= m <= 12
  {
    [0, 31, 59, 90, 120, 151, 181, 212, 243, 273, 304, 334][m - 1]
    + (if m > 2 && IsLeapYear(y) then 1 else 0)
  }

  /** Number of leap years in 1..y (negative counts for years before 1). */
  function LeapsThrough(y: int): int {
    y / 4 - y / 100 + y / 400
  }

  /** Days from 1970-01-01 to the first of January of year `y`. */
  function DaysBeforeYear(y: int): int {
    365 * (y - 1970) + LeapsThrough(y - 1) - LeapsThrough(1969)
  }

  /** Days from 1970-01-01 to the given calendar date. */
  function DaysFromCivil(y: int, m: int, d: int): int
    requires 1 <= m <= 12
  {
    DaysBeforeYear(y) + DaysBeforeMonth(y, m) + d - 1
  }

  /** The calendar date that follows a valid date. */
  function NextDate(y: int, m: int, d: int): (r: (int, int, int))
    requires ValidDate(y, m, d)
    ensures ValidDate(r.0, r.1, r.2)
  {
    if d < DaysInMonth(y, m) then (y, m, d + 1)
    else if m < 12 then (y, m + 1, 1)
    else (y + 1, 1, 1)
  }

  lemma DivStep4(y: int)
    ensures y / 4 - (y - 1) / 4 == if y % 4 == 0 then 1 else 0
  {
  }

  lemma DivStep100(y: int)
    ensures y / 100 - (y - 1) / 100 == if y % 100 == 0 then 1 else 0
  {
  }

  lemma DivStep400(y: int)
    ensures y / 400 - (y - 1) / 400 == if y % 400 == 0 then 1 else 0
  {
  }

  lemma Mod400Is100(y: int)
    requires y % 400 == 0
    ensures y % 100 == 0
  {
    assert y == 100 * (4 * (y / 400));
  }

  lemma Mod100Is4(y: int)
    requires y % 100 == 0
    ensures y % 4 == 0
  {
    assert y == 4 * (25 * (y / 100));
  }

  lemma LeapStep(y: int)
    ensures LeapsThrough(y) - LeapsThrough(y - 1) == if IsLeapYear(y) then 1 else 0
  {
    DivStep4(y);
    DivStep100(y);
    DivStep400(y);
    if y % 400 == 0 {
      Mod400Is100(y);
    }
    if y % 100 == 0 {
      Mod100Is4(y);
    }
  }

  /** Day numbering counts the calendar: the next date is exactly one day later. */
  lemma {:induction false} NextDateIsOneDayLater(y: int, m: int, d: int)
    requires ValidDate(y, m, d)
    ensures DaysFromCivil(NextDate(y, m, d).0, NextDate(y, m, d).1, NextDate(y, m, d).2)
      == DaysFromCivil(y, m, d) + 1
  {
    if d == DaysInMonth(y, m) && m == 12 {
      LeapStep(y);
    }
  }

  // ---------------------------------------------------------------------
  // toDateOnly, dayOfWeekUTC, composeDateTime
  // ---------------------------------------------------------------------

  /**
   * The fields of a string in one of the date-only forms of the ECMAScript
   * date-time string format (section 21.4.1.32 of ECMA-262): "YYYY",
   * "YYYY-MM" or "YYYY-MM-DD", the year being four digits or a sign and six
   * digits.  A missing month or day is 1; no field is range-checked here.
   */
  datatype DateFields = DateFields(year: int, month: int, day: int)

  /** The length of the year at the head of `s`: four digits, a sign and six digits, or 0 for neither. */
  function YearLength(s: string): (n: nat)
    ensures n == 0 || n == 4 || n == 7
    ensures n <= |s|
  {
    if |s| >= 4 && AllDigits(s[..4]) then 4
    else if |s| >= 7 && (s[0] == '+' || s[0] == '-') && AllDigits(s[1..7]) then 7
    else 0
  }

  /** The year at the head of `s`; "-000000" is the one year text the format rules out. */
  function YearValue(s: string): Option<int> {
    var n := YearLength(s);
    if n == 4 then Some(DigitsValue(s[..4]))
    else if n == 7 && s[0] == '+' then Some(DigitsValue(s[1..7]))
    else if n == 7 && DigitsValue(s[1..7]) != 0 then Some(-(DigitsValue(s[1..7]) as int))
    else None
  }

  /** `s[i..i + 3]` is a dash and two digits. */
  predicate DashedPair(s: string, i: nat) {
    i + 3 <= |s| && s[i] == '-' && AllDigits(s[i + 1..i + 3])
  }

  function DateOnlyFields(s: string): Option<DateFields> {
    var n := YearLength(s);
    var year := YearValue(s);
    if year.None? then None
    else if |s| == n then Some(DateFields(year.value, 1, 1))
    else if |s| == n + 3 && DashedPair(s, n) then
      Some(DateFields(year.value, DigitsValue(s[n + 1..n + 3]), 1))
    else if |s| == n + 6 && DashedPair(s, n) && DashedPair(s, n + 3) then
      Some(DateFields(year.value, DigitsValue(s[n + 1..n + 3]), DigitsValue(s[n + 4..n + 6])))
    else None
  }

  /** A time value lies within 8.64e15 ms, that is 10^8 days, of the epoch (TimeClip). */
  const MaxTimeDays: int := 100000000

  /**
   * `toDateOnly(s)`, which is `new Date(s + "T00:00:00Z")` as V8 reads it:
   * one of the date-only forms, a month in 1..12 and a day in 1..31, a day
   * past the end of its month running on into the next month (MakeDay),
   * and nothing beyond the time-value range.  None is an Invalid Date.
   */
  function ToDateOnly(s: string): (r: Option<int>)
    ensures r.Some? ==> r.value % MsPerDay == 0
    ensures r.Some? ==> -MaxTimeDays * MsPerDay <= r.value <= MaxTimeDays * MsPerDay
    ensures DateOnlyFields(s).None? ==> r.None?
  {
    var f := DateOnlyFields(s);
    if f.None? || !(1 <= f.value.month <= 12 && 1 <= f.value.day <= 31) then None
    else
      var k := DaysFromCivil(f.value.year, f.value.month, 1) + f.value.day - 1;
      if -MaxTimeDays <= k <= MaxTimeDays then DayMultiple(k); Some(k * MsPerDay) else None
  }

  /** The "YYYY-MM-DD" form with a four-digit year. */
  predicate IsoDateShape(s: string) {
    && |s| == 10 && s[4] == '-' && s[7] == '-'
    && AllDigits(s[0..4]) && AllDigits(s[5..7]) && AllDigits(s[8..10])
  }

  lemma IsoShapeFields(s: string)
    requires IsoDateShape(s)
    ensures DateOnlyFields(s) == Some(DateFields(DigitsValue(s[0..4]), DigitsValue(s[5..7]), DigitsValue(s[8..10])))
  {
    assert s[..4] == s[0..4];
  }

  /** Every date of a four-digit year lies well inside the time-value range. */
  lemma FourDigitYearInRange(y: int, m: int, d: int)
    requires 0 <= y <= 9999 && 1 <= m <= 12 && 1 <= d <= 31
    ensures -MaxTimeDays <= DaysFromCivil(y, m, 1) + d - 1 <= MaxTimeDays
  {
  }

  /**
   * `toDateOnly` of a "YYYY-MM-DD" string: a calendar date is its own UTC
   * midnight, a month outside 1..12 or a day outside 1..31 is an Invalid
   * Date, and a day past the end of its month is that many days into the
   * next month.
   */
  lemma ToDateOnlyOfIsoShape(s: string)
    requires IsoDateShape(s)
    ensures var y, m, d := DigitsValue(s[0..4]), DigitsValue(s[5..7]), DigitsValue(s[8..10]);
      ValidDate(y, m, d) ==> ToDateOnly(s) == Some(DaysFromCivil(y, m, d) * MsPerDay)
    ensures var m, d := DigitsValue(s[5..7]), DigitsValue(s[8..10]);
      !(1 <= m <= 12 && 1 <= d <= 31) ==> ToDateOnly(s) == None
    ensures var y, m, d := DigitsValue(s[0..4]), DigitsValue(s[5..7]), DigitsValue(s[8..10]);
      1 <= m <= 12 && DaysInMonth(y, m) < d <= 31 ==>
      m < 12 && ToDateOnly(s) == Some(DaysFromCivil(y, m + 1, d - DaysInMonth(y, m)) * MsPerDay)
  {
    IsoShapeFields(s);
    var y, m, d := DigitsValue(s[0..4]), DigitsValue(s[5..7]), DigitsValue(s[8..10]);
    if 1 <= m <= 12 && 1 <= d <= 31 {
      DigitsBelow(s[0..4]);
      assert TenTo(4) == 10000;
      FourDigitYearInRange(y, m, d);
    }
  }

  /** A year alone is its first of January, a year and a month the first of that month. */
  lemma ShortFormsAreFirstDays(year: string, month: string)
    requires |year| == 4 && AllDigits(year) && |month| == 2 && AllDigits(month)
    ensures ToDateOnly(year) == ToDateOnly(year + "-01-01")
    ensures ToDateOnly(year + "-" + month) == ToDateOnly(year + "-" + month + "-01")
  {
    assert DigitsValue("01") == 1 by {
      assert "01"[..1] == "0";
    }
    YearFormIsFirstDay(year);
    MonthFormIsFirstDay(year, month);
  }

  lemma YearFormIsFirstDay(year: string)
    requires |year| == 4 && AllDigits(year) && DigitsValue("01") == 1
    ensures ToDateOnly(year) == ToDateOnly(year + "-01-01")
  {
    var a := year + "-01-01";
    assert year[..4] == year && a[..4] == year;
    assert a[5..7] == "01" && a[8..10] == "01";
  }

  lemma MonthFormIsFirstDay(year: string, month: string)
    requires |year| == 4 && AllDigits(year) && |month| == 2 && AllDigits(month) && DigitsValue("01") == 1
    ensures ToDateOnly(year + "-" + month) == ToDateOnly(year + "-" + month + "-01")
  {
    var b := year + "-" + month;
    var c := b + "-01";
    assert b[..4] == year && c[..4] == year;
    assert b[5..7] == month && c[5..7] == month && c[8..10] == "01";
  }

  /** The six-digit year form "+00YYYY-MM-DD" names the same date as "YYYY-MM-DD". */
  lemma ExtendedYearSameDate(s: string)
    requires IsoDateShape(s)
    ensures ToDateOnly("+00" + s) == ToDateOnly(s)
  {
    var t := "+00" + s;
    assert t[1..7] == "00" + s[0..4];
    LeadingZeros("00", s[0..4]);
    assert t[8..10] == s[5..7] && t[11..13] == s[8..10];
    IsoShapeFields(s);
  }

  /** `10^w` */
  function TenTo(w: nat): nat {
    if w == 0 then 1 else 10 * TenTo(w - 1)
  }

  /** `w` digits are worth less than `10^w`. */
  lemma {:induction false} DigitsBelow(s: string)
    requires AllDigits(s)
    ensures DigitsValue(s) < TenTo(|s|)
  {
    if |s| > 0 {
      DigitsBelow(s[..|s| - 1]);
    }
  }

  /** A number below `10^w` prints in at most `w` digits. */
  lemma {:induction false} ShortDecimal(n: nat, w: nat)
    requires 1 <= w && n < TenTo(w)
    ensures |NatToString(n)| <= w
  {
    if n >= 10 {
      assert NatToString(n) == NatToString(n / 10) + [DigitChar(n % 10)];
      ShortDecimal(n / 10, w - 1);
    }
  }

  // ---------------------------------------------------------------------
  // Date.prototype.toISOString and the day a stored date reads back as
  // ---------------------------------------------------------------------

  /** Year `y` is 365 days long, or 366 in a leap year. */
  lemma YearSpan(y: int)
    ensures DaysBeforeYear(y + 1) - DaysBeforeYear(y) == if IsLeapYear(y) then 366 else 365
  {
    LeapStep(y);
  }

  /** Up to 1970, the years between `y` and 1970 span 365 to 366 days each. */
  lemma {:induction false} EarlyYearsBounds(y: int)
    requires y <= 1970
    ensures 366 * (y - 1970) <= DaysBeforeYear(y) <= 365 * (y - 1970)
    decreases 1970 - y
  {
    if y < 1970 {
      EarlyYearsBounds(y + 1);
      YearSpan(y);
    }
  }

  /** From 1970 on, the years between 1970 and `y` span 365 to 366 days each. */
  lemma {:induction false} LateYearsBounds(y: int)
    requires y >= 1970
    ensures 365 * (y - 1970) <= DaysBeforeYear(y) <= 366 * (y - 1970)
    decreases y - 1970
  {
    if y > 1970 {
      LateYearsBounds(y - 1);
      YearSpan(y - 1);
    }
  }

  /** The year holding day `k`, searched upward from a year `y` that begins no later. */
  function YearFrom(y: int, k: int): (r: int)
    requires DaysBeforeYear(y) <= k
    ensures y <= r && DaysBeforeYear(r) <= k < DaysBeforeYear(r + 1)
    decreases k - DaysBeforeYear(y)
  {
    YearSpan(y);
    if k < DaysBeforeYear(y + 1) then y else YearFrom(y + 1, k)
  }

  /** The month holding day `doy` (from 0) of year `y`, searched downward from month `m`. */
  function MonthFrom(y: int, m: int, doy: int): (r: int)
    requires 1 <= m <= 12 && 0 <= doy
    ensures 1 <= r <= m && DaysBeforeMonth(y, r) <= doy
    ensures r < m ==> doy < DaysBeforeMonth(y, r + 1)
    decreases m
  {
    if m == 1 || DaysBeforeMonth(y, m) <= doy then m else MonthFrom(y, m - 1, doy)
  }

  /** The calendar date of day `k` counted from 1970-01-01: `DaysFromCivil` undone. */
  function CivilFromDays(k: int): (c: (int, int, int))
    ensures ValidDate(c.0, c.1, c.2) && DaysFromCivil(c.0, c.1, c.2) == k
  {
    var start := if k >= 0 then 1970 else 1970 + k / 365;
    assert DaysBeforeYear(start) <= k by {
      EarlyYearsBounds(start);
    }
    var y := YearFrom(start, k);
    var doy := k - DaysBeforeYear(y);
    assert doy < (if IsLeapYear(y) then 366 else 365) by {
      YearSpan(y);
    }
    DayOfYearValid(y, doy);
    var m := MonthFrom(y, 12, doy);
    (y, m, doy - DaysBeforeMonth(y, m) + 1)
  }

  /** Day `doy` of year `y` falls on a valid date of the month `MonthFrom` finds. */
  lemma DayOfYearValid(y: int, doy: int)
    requires 0 <= doy < (if IsLeapYear(y) then 366 else 365)
    ensures var m := MonthFrom(y, 12, doy); ValidDate(y, m, doy - DaysBeforeMonth(y, m) + 1)
  {
    var m := MonthFrom(y, 12, doy);
    DaysBeforeMonthBounds(y, m);
  }

  /** A day within the time-value range falls in a year of at most six digits. */
  lemma CivilYearBound(k: int)
    requires -MaxTimeDays <= k <= MaxTimeDays
    ensures -1000000 < CivilFromDays(k).0 < 1000000
  {
    var y := CivilFromDays(k).0;
    assert DaysBeforeYear(y) <= k < DaysBeforeYear(y + 1) by {
      DaysBeforeMonthBounds(y, CivilFromDays(k).1);
      YearSpan(y);
    }
    if y >= 1970 {
      LateYearsBounds(y);
    } else {
      EarlyYearsBounds(y + 1);
    }
  }

  /** The first of month `m` is 0 to 335 days into the year, and the month ends within it. */
  lemma DaysBeforeMonthBounds(y: int, m: int)
    requires 1 <= m <= 12
    ensures 0 <= DaysBeforeMonth(y, m) && DaysBeforeMonth(y, m) + DaysInMonth(y, m) <= if IsLeapYear(y) then 366 else 365
  {
  }

  /**
   * The year as `toISOString` prints it: four digits for 0..9999, otherwise
   * a sign and six digits (an expanded year of section 21.4.1.32.2 of
   * ECMA-262).
   */
  function IsoYearText(y: int): (r: string)
    ensures |r| >= 4
    ensures 0 <= y <= 9999 ==> |r| == 4 && AllDigits(r) && DigitsValue(r) == y
    ensures !(0 <= y <= 9999) ==> |r| >= 7 && r[0] == (if y > 0 then '+' else '-') && AllDigits(r[1..])
    ensures !(0 <= y <= 9999) && -1000000 < y < 1000000 ==>
      |r| == 7 && DigitsValue(r[1..]) == (if y > 0 then y else -y)
  {
    if 0 <= y <= 9999 then
      assert TenTo(4) == 10000;
      ZeroPadded(y, 4)
    else
      var a: nat := if y > 0 then y else -y;
      assert TenTo(6) == 1000000;
      var digits := ZeroPadded(a, 6);
      var r := (if y > 0 then "+" else "-") + digits;
      assert r[1..] == digits;
      r
  }

  /** `n` in decimal, padded on the left with zeros to at least `width` digits. */
  function ZeroPadded(n: nat, width: nat): (r: string)
    requires 1 <= width
    ensures |r| >= width && AllDigits(r) && DigitsValue(r) == n
    ensures n < TenTo(width) ==> |r| == width
  {
    PaddedValue(n, width);
    assert n < TenTo(width) ==> |NatToString(n)| <= width by {
      if n < TenTo(width) {
        ShortDecimal(n, width);
      }
    }
    PadStart(NatToString(n), width, '0')
  }

  /** `n` as two digits, for `n` below 100. */
  function TwoDigits(n: nat): (r: string)
    requires n < 100
    ensures |r| == 2 && AllDigits(r) && DigitsValue(r) == n
  {
    ShortDecimal(n, 2);
    PaddedValue(n, 2);
    PadStart(NatToString(n), 2, '0')
  }

  /**
   * The date part of `toISOString()`: the year as `IsoYearText` prints it,
   * then the month and the day as two digits each, joined by dashes.
   */
  function IsoDateText(y: int, m: nat, d: nat): (r: string)
    requires m < 100 && d < 100
    ensures |r| >= 10
    ensures 0 <= y <= 9999 ==> IsoDateShape(r)
    ensures 0 <= y <= 9999 ==>
      DigitsValue(r[0..4]) == y && DigitsValue(r[5..7]) == m && DigitsValue(r[8..10]) == d
  {
    var ys, ms, ds := IsoYearText(y), TwoDigits(m), TwoDigits(d);
    if 0 <= y <= 9999 then FourDigitDate(ys, ms, ds); ys + "-" + ms + "-" + ds
    else ys + "-" + ms + "-" + ds
  }

  /** Four digits, two and two, joined by dashes, make the "YYYY-MM-DD" shape with those fields. */
  lemma FourDigitDate(ys: string, ms: string, ds: string)
    requires |ys| == 4 && AllDigits(ys) && |ms| == 2 && AllDigits(ms) && |ds| == 2 && AllDigits(ds)
    ensures var r := ys + "-" + ms + "-" + ds;
      IsoDateShape(r) && r[0..4] == ys && r[5..7] == ms && r[8..10] == ds
  {
    var r := ys + "-" + ms + "-" + ds;
    assert r[0..4] == ys && r[5..7] == ms && r[8..10] == ds;
  }

  /**
   * The printed date of a year outside 0..9999 (but of at most six digits)
   * reads as that date, and its first ten characters as the first of its
   * month.
   */
  lemma ExpandedIsoDateFields(y: int, m: nat, d: nat)
    requires m < 100 && d < 100
    requires !(0 <= y <= 9999) && -1000000 < y < 1000000
    ensures DateOnlyFields(IsoDateText(y, m, d)) == Some(DateFields(y, m, d))
    ensures DateOnlyFields(IsoDateText(y, m, d)[..10]) == Some(DateFields(y, m, 1))
  {
    var ys, ms, ds := IsoYearText(y), TwoDigits(m), TwoDigits(d);
    assert IsoDateText(y, m, d) == ys + "-" + ms + "-" + ds;
    ExpandedYearFields(ys, ms, ds, y);
    FirstTenOfExpanded(ys, ms, ds);
    ExpandedYearMonthFields(ys, ms, y);
  }

  /** The first ten characters of an expanded-year date are its year and month. */
  lemma FirstTenOfExpanded(ys: string, ms: string, ds: string)
    requires |ys| == 7 && |ms| == 2
    ensures (ys + "-" + ms + "-" + ds)[..10] == ys + "-" + ms
  {
  }

  /** A string that opens with a sign and six digits has that expanded year at its head. */
  lemma ExpandedYearHead(t: string, y: int)
    requires |t| >= 7 && (t[0] == '+' || t[0] == '-') && AllDigits(t[1..7])
    requires y == if t[0] == '+' then DigitsValue(t[1..7]) as int else -(DigitsValue(t[1..7]) as int)
    requires y != 0
    ensures YearLength(t) == 7 && YearValue(t) == Some(y)
  {
    assert !IsDigit(t[..4][0]);
  }

  /** A sign, six digits, "-MM" and "-DD" read as an expanded-year date. */
  lemma ExpandedYearFields(ys: string, ms: string, ds: string, y: int)
    requires |ys| == 7 && (ys[0] == '+' || ys[0] == '-') && AllDigits(ys[1..])
    requires y == if ys[0] == '+' then DigitsValue(ys[1..]) as int else -(DigitsValue(ys[1..]) as int)
    requires y != 0
    requires |ms| == 2 && AllDigits(ms) && |ds| == 2 && AllDigits(ds)
    ensures DateOnlyFields(ys + "-" + ms + "-" + ds) == Some(DateFields(y, DigitsValue(ms), DigitsValue(ds)))
  {
    var r := ys + "-" + ms + "-" + ds;
    assert r[1..7] == ys[1..];
    ExpandedYearHead(r, y);
    assert r[8..10] == ms && r[11..13] == ds;
    assert DashedPair(r, 7) && DashedPair(r, 10);
  }

  /** A sign, six digits and "-MM" read as the first of an expanded-year month. */
  lemma ExpandedYearMonthFields(ys: string, ms: string, y: int)
    requires |ys| == 7 && (ys[0] == '+' || ys[0] == '-') && AllDigits(ys[1..])
    requires y == if ys[0] == '+' then DigitsValue(ys[1..]) as int else -(DigitsValue(ys[1..]) as int)
    requires y != 0
    requires |ms| == 2 && AllDigits(ms)
    ensures DateOnlyFields(ys + "-" + ms) == Some(DateFields(y, DigitsValue(ms), 1))
  {
    var s := ys + "-" + ms;
    assert s[1..7] == ys[1..];
    ExpandedYearHead(s, y);
    assert s[8..10] == ms;
    assert DashedPair(s, 7);
  }

  /** `toDateOnly` of a string whose date-only fields are a valid calendar date. */
  lemma ToDateOnlyOfValidFields(s: string, y: int, m: int, d: int)
    requires DateOnlyFields(s) == Some(DateFields(y, m, d)) && ValidDate(y, m, d)
    ensures ToDateOnly(s) ==
      if -MaxTimeDays <= DaysFromCivil(y, m, d) <= MaxTimeDays then Some(DaysFromCivil(y, m, d) * MsPerDay) else None
  {
  }

  /** Reading back the printed form of a calendar date gives its UTC midnight, when that is a time value. */
  lemma ToDateOnlyOfIsoDateText(y: int, m: int, d: int)
    requires -1000000 < y < 1000000 && ValidDate(y, m, d)
    ensures ToDateOnly(IsoDateText(y, m, d)) ==
      if -MaxTimeDays <= DaysFromCivil(y, m, d) <= MaxTimeDays then Some(DaysFromCivil(y, m, d) * MsPerDay) else None
    ensures 0 <= y <= 9999 ==> ToDateOnly(IsoDateText(y, m, d)) == Some(DaysFromCivil(y, m, d) * MsPerDay)
  {
    var r := IsoDateText(y, m, d);
    if 0 <= y <= 9999 {
      ToDateOnlyOfIsoShape(r);
      FourDigitYearInRange(y, m, d);
    } else {
      ExpandedIsoDateFields(y, m, d);
      ToDateOnlyOfValidFields(r, y, m, d);
    }
  }

  /** An instant within 8.64e15 ms of the epoch, the range of a `Date` that is not Invalid. */
  predicate IsTimeValue(ms: int) {
    -MaxTimeDays * MsPerDay <= ms <= MaxTimeDays * MsPerDay
  }

  /** `date.toISOString().slice(0, 10)` of the instant `ms`. */
  function IsoSlice(ms: int): (r: string)
    ensures |r| == 10
  {
    var c := CivilFromDays(ms / MsPerDay);
    IsoDateText(c.0, c.1, c.2)[..10]
  }

  /** The UTC year of the instant `ms`. */
  function UtcYear(ms: int): int {
    CivilFromDays(ms / MsPerDay).0
  }

  /** The UTC month of the instant `ms`. */
  function UtcMonth(ms: int): (m: int)
    ensures 1 <= m <= 12
  {
    CivilFromDays(ms / MsPerDay).1
  }

  /**
   * `toDateOnly(date.toISOString().slice(0, 10))`.  For a year in 0..9999
   * the slice is the whole date, which reads back as the UTC midnight of the
   * day holding `ms`.  For any other year it ends after the month, so it
   * reads back as the first of that month, or as an Invalid Date when that
   * first precedes the time-value range.
   */
  function ReadBackUtcDay(ms: int): (r: Option<int>)
    ensures 0 <= UtcYear(ms) <= 9999 ==> r == Some(TruncateToUtcDay(ms))
    ensures IsTimeValue(ms) && !(0 <= UtcYear(ms) <= 9999) ==>
      var c := CivilFromDays(ms / MsPerDay);
      r == if -MaxTimeDays <= DaysFromCivil(c.0, c.1, 1) then Some(DaysFromCivil(c.0, c.1, 1) * MsPerDay) else None
  {
    if 0 <= UtcYear(ms) <= 9999 then ReadBackFourDigitYear(ms); ToDateOnly(IsoSlice(ms))
    else if IsTimeValue(ms) then ReadBackExpandedYear(ms); ToDateOnly(IsoSlice(ms))
    else ToDateOnly(IsoSlice(ms))
  }

  lemma ReadBackFourDigitYear(ms: int)
    requires 0 <= UtcYear(ms) <= 9999
    ensures ToDateOnly(IsoSlice(ms)) == Some(TruncateToUtcDay(ms))
  {
    var c := CivilFromDays(ms / MsPerDay);
    FourDigitDateReadsBack(c.0, c.1, c.2);
  }

  /** The printed date of a four-digit year, cut to ten characters, reads back as that date. */
  lemma FourDigitDateReadsBack(y: int, m: int, d: int)
    requires 0 <= y <= 9999 && ValidDate(y, m, d)
    ensures ToDateOnly(IsoDateText(y, m, d)[..10]) == Some(DaysFromCivil(y, m, d) * MsPerDay)
  {
    var t := IsoDateText(y, m, d);
    assert t[..10] == t;
    ToDateOnlyOfIsoDateText(y, m, d);
  }

  lemma ReadBackExpandedYear(ms: int)
    requires IsTimeValue(ms) && !(0 <= UtcYear(ms) <= 9999)
    ensures var c := CivilFromDays(ms / MsPerDay);
      ToDateOnly(IsoSlice(ms)) ==
        if -MaxTimeDays <= DaysFromCivil(c.0, c.1, 1) then Some(DaysFromCivil(c.0, c.1, 1) * MsPerDay) else None
  {
    var k := ms / MsPerDay;
    var c := CivilFromDays(k);
    CivilYearBound(k);
    ExpandedIsoDateFields(c.0, c.1, c.2);
    ToDateOnlyOfValidFields(IsoSlice(ms), c.0, c.1, 1);
  }


  /** The midnight of day `k` is a whole number of days. */
  lemma DayMultiple(k: int)
    ensures (k * MsPerDay) % MsPerDay == 0 && (k * MsPerDay) / MsPerDay == k
  {
  }

  /** `date.getUTCDay()`: 0 is Sunday; 1970-01-01 was a Thursday. */
  function DayOfWeekUTC(ms: int): (r: int)
    ensures 0 <= r < 7
  {
    (ms / MsPerDay + 4) % 7
  }

  /**
   * `composeDateTime(date, minutes)`: the instant `minutes` after `date`.
   * A minute of a day, composed with that day's midnight, stays on that
   * UTC day.
   */
  function ComposeDateTime(date: int, minutes: int): (r: int)
    ensures date % MsPerDay == 0 && 0 <= minutes < MinutesPerDay ==> TruncateToUtcDay(r) == date
  {
    date + minutes * MsPerMinute
  }

  /** The UTC midnight of the day that contains the instant `ms`. */
  function TruncateToUtcDay(ms: int): (r: int)
    ensures r % MsPerDay == 0 && r <= ms < r + MsPerDay
  {
    (ms / MsPerDay) * MsPerDay
  }

  /** Every instant of one UTC day has that day's weekday. */
  lemma SameUtcDaySameWeekday(day: int, offset: int)
    requires 0 <= offset < MsPerDay
    ensures DayOfWeekUTC(day * MsPerDay + offset) == DayOfWeekUTC(day * MsPerDay)
  {
    assert (day * MsPerDay + offset) / MsPerDay == day;
    assert (day * MsPerDay) / MsPerDay == day;
  }

  /** Composing a date with a minute of that day never changes the weekday. */
  lemma ComposeKeepsWeekday(date: int, minutes: int)
    requires date % MsPerDay == 0
    requires 0 <= minutes < MinutesPerDay
    ensures DayOfWeekUTC(ComposeDateTime(date, minutes)) == DayOfWeekUTC(date)
  {
    var day := date / MsPerDay;
    assert date == day * MsPerDay;
    SameUtcDaySameWeekday(day, minutes * MsPerMinute);
  }

  lemma WeekdayOfDay(k: int)
    ensures DayOfWeekUTC(k * MsPerDay) == (k + 4) % 7
  {
    DayMultiple(k);
  }

  lemma WeekdayStep(k: int)
    ensures DayOfWeekUTC((k + 1) * MsPerDay) == (DayOfWeekUTC(k * MsPerDay) + 1) % 7
  {
    WeekdayOfDay(k);
    WeekdayOfDay(k + 1);
  }

  /** One calendar date later is one weekday later. */
  lemma NextDateNextWeekday(y: int, m: int, d: int)
    requires ValidDate(y, m, d)
    ensures DayOfWeekUTC(DaysFromCivil(NextDate(y, m, d).0, NextDate(y, m, d).1, NextDate(y, m, d).2) * MsPerDay)
      == (DayOfWeekUTC(DaysFromCivil(y, m, d) * MsPerDay) + 1) % 7
  {
    NextDateIsOneDayLater(y, m, d);
    WeekdayStep(DaysFromCivil(y, m, d));
  }

  /** `composeDateTime` is strictly monotone in the minute offset. */
  lemma ComposeMonotone(date: int, a: int, b: int)
    ensures a < b <==> ComposeDateTime(date, a) < ComposeDateTime(date, b)
    ensures a == b <==> ComposeDateTime(date, a) == ComposeDateTime(date, b)
  {
  }

  /** 2025-03-10 (the date the scheduling tests book on) is a Monday. */
  lemma ExampleDateIsMonday()
    ensures ToDateOnly("2025-03-10") == Some(20157 * MsPerDay)
    ensures DayOfWeekUTC(20157 * MsPerDay) == 1
  {
    var s := "2025-03-10";
    assert s[0..4] == "2025" && s[5..7] == "03" && s[8..10] == "10";
    assert DigitsValue("2025") == 2025 by {
      assert "2025"[..3] == "202" && "202"[..2] == "20" && "20"[..1] == "2";
    }
    assert DigitsValue("03") == 3 by {
      assert "03"[..1] == "0";
    }
    assert DigitsValue("10") == 10 by {
      assert "10"[..1] == "1";
    }
    assert DaysFromCivil(2025, 3, 10) == 20157;
    ToDateOnlyOfIsoShape(s);
    ExampleDayIsMonday();
  }

  lemma ExampleDayIsMonday()
    ensures DayOfWeekUTC(20157 * MsPerDay) == 1
  {
    WeekdayOfDay(20157);
  }

  // ---------------------------------------------------------------------
  // toMinutes, minutesToHHMM
  // ---------------------------------------------------------------------

  /**
   * `toMinutes("HH:MM")`: `Number` of the text before the first colon,
   * times 60, plus `Number` of the text after it; None is NaN.
   */
  function ToMinutes(hhmm: string): (r: Option<int>)
    ensures ':' !in hhmm ==> r == None
  {
    var parts := Split(hhmm, ':');
    if |parts| < 2 then None else ClockMinutes(NumberValue(parts[0]), NumberValue(parts[1]))
  }

  /** `hours * 60 + minutes`, NaN when either is. */
  function ClockMinutes(hours: Option<int>, minutes: Option<int>): (r: Option<int>)
    ensures r.Some? <==> hours.Some? && minutes.Some?
    ensures r.Some? ==> r.value == hours.value * 60 + minutes.value
  {
    if hours.Some? && minutes.Some? then Some(hours.value * 60 + minutes.value) else None
  }

  /** JavaScript's `%`: the remainder takes the sign of the dividend. */
  function JsRemainder(a: int, b: int): (r: int)
    requires b > 0
    ensures a >= 0 ==> r == a % b
    ensures a < 0 ==> -b < r <= 0
    ensures (a - r) % b == 0
  {
    if a >= 0 then EuclideanRemainder(a, b); a % b
    else
      NegatedRemainder(a, b);
      -((-a) % b)
  }

  /** A dividend less its remainder is a multiple of the divisor. */
  lemma EuclideanRemainder(a: int, b: int)
    requires b > 0
    ensures (a - a % b) % b == 0
  {
    var q := a / b;
    assert a - a % b == q * b by {
      assert a == q * b + a % b;
    }
    MultipleMod(q, b);
  }

  /** The truncated remainder of a negative dividend differs from it by a multiple of the divisor. */
  lemma NegatedRemainder(a: int, b: int)
    requires b > 0
    ensures (a + (-a) % b) % b == 0
  {
    var q := (-a) / b;
    assert a + (-a) % b == (-q) * b by {
      assert -a == q * b + (-a) % b;
    }
    MultipleMod(-q, b);
  }

  lemma MultipleMod(k: int, b: int)
    requires b > 0
    ensures (k * b) % b == 0
  {
    var n := k * b;
    var q, r := n / b, n % b;
    assert 0 <= r < b && r == (k - q) * b by {
      assert n == q * b + r;
    }
    ZeroMultipleBelow(k - q, b, r);
  }

  /** The only multiple of `b` in 0..b-1 is 0. */
  lemma ZeroMultipleBelow(j: int, b: int, r: int)
    requires b > 0 && 0 <= r < b && r == j * b
    ensures r == 0
  {
  }

  /** The hours field of `minutesToHHMM`: `Math.floor(m / 60)`, padded. */
  function HoursField(totalMinutes: int): string {
    PadStart(IntToString(totalMinutes / 60), 2, '0')
  }

  /** The minutes field of `minutesToHHMM`: JavaScript's `m % 60`, padded. */
  function MinutesField(totalMinutes: int): string {
    PadStart(IntToString(JsRemainder(totalMinutes, 60)), 2, '0')
  }

  /**
   * `minutesToHHMM(m)`: the two padded fields joined by ':'.  For a count
   * that is not negative that is "HH:MM": digits, a colon, two digits.
   */
  function MinutesToHHMM(totalMinutes: int): (r: string)
    ensures totalMinutes >= 0 ==> ClockShape(r)
  {
    if totalMinutes >= 0 then
      HHMMShape(totalMinutes);
      HoursField(totalMinutes) + ":" + MinutesField(totalMinutes)
    else HoursField(totalMinutes) + ":" + MinutesField(totalMinutes)
  }

  /** "HH:MM": at least two digits, a colon, two digits. */
  predicate ClockShape(r: string) {
    |r| >= 5 && r[|r| - 3] == ':' && AllDigits(r[..|r| - 3]) && AllDigits(r[|r| - 2..])
  }

  lemma HHMMShape(m: int)
    requires m >= 0
    ensures ClockShape(HoursField(m) + ":" + MinutesField(m))
  {
    var h, mm := HoursField(m), MinutesField(m);
    assert |h| >= 2 && AllDigits(h) && |mm| == 2 && AllDigits(mm) by {
      HHMMFields(m);
    }
    ColonJoined(h, mm);
  }

  /** Digits, a colon and two digits: the pieces can be read off the joined text. */
  lemma ColonJoined(h: string, m: string)
    requires |h| >= 2 && AllDigits(h) && |m| == 2 && AllDigits(m)
    ensures ClockShape(h + ":" + m)
  {
    var r := h + ":" + m;
    assert r[..|r| - 3] == h && r[|r| - 2..] == m;
  }

  /**
   * For a non-negative count the hours field is a run of at least two digits
   * worth `m / 60`, and the minutes field exactly two digits worth `m % 60`.
   */
  lemma HHMMFields(m: int)
    requires m >= 0
    ensures |HoursField(m)| >= 2 && AllDigits(HoursField(m))
    ensures NumberValue(HoursField(m)) == Some(m / 60)
    ensures |MinutesField(m)| == 2 && AllDigits(MinutesField(m))
    ensures NumberValue(MinutesField(m)) == Some(m % 60)
  {
    var h, mm := m / 60, m % 60;
    assert IntToString(h) == NatToString(h);
    assert HoursField(m) == PadStart(NatToString(h), 2, '0');
    NumberOfPadded(h, 2);
    PaddedDigits(h, 2);
    assert JsRemainder(m, 60) == mm;
    assert IntToString(mm) == NatToString(mm);
    assert MinutesField(m) == PadStart(NatToString(mm), 2, '0');
    NumberOfPadded(mm, 2);
    PaddedDigits(mm, 2);
    TwoDigitsAtMost(mm);
  }

  lemma PaddedDigits(n: nat, width: nat)
    ensures AllDigits(PadStart(NatToString(n), width, '0'))
    ensures |PadStart(NatToString(n), width, '0')| >= width
  {
  }

  lemma TwoDigitsAtMost(n: nat)
    requires n < 100
    ensures |NatToString(n)| <= 2
  {
    if n >= 10 {
      assert NatToString(n) == NatToString(n / 10) + [DigitChar(n % 10)];
    }
  }

  /** `toMinutes` of two colon-free fields joined by ':'. */
  lemma ToMinutesOfFields(a: string, b: string)
    requires ':' !in a && ':' !in b
    ensures ToMinutes(a + ":" + b) == ClockMinutes(NumberValue(a), NumberValue(b))
  {
    var x := a + ":" + b;
    assert x == a + [':'] + b;
    SplitTwoFields(a, b, ':');
    ToMinutesOfSplit(x, a, b);
  }

  lemma ToMinutesOfSplit(x: string, a: string, b: string)
    requires Split(x, ':') == [a, b]
    ensures ToMinutes(x) == ClockMinutes(NumberValue(a), NumberValue(b))
  {
  }

  lemma DigitsHaveNoColon(s: string)
    requires AllDigits(s)
    ensures ':' !in s
  {
  }

  lemma HoursAndMinutes(m: int)
    ensures ClockMinutes(Some(m / 60), Some(m % 60)) == Some(m)
  {
  }

  /** Printing a non-negative minute count and reading it back is the identity. */
  lemma MinutesRoundTrip(m: int)
    requires m >= 0
    ensures ToMinutes(MinutesToHHMM(m)) == Some(m)
  {
    var h, mm := HoursField(m), MinutesField(m);
    HHMMFields(m);
    DigitsHaveNoColon(h);
    DigitsHaveNoColon(mm);
    ToMinutesOfFields(h, mm);
    assert MinutesToHHMM(m) == h + ":" + mm;
    HoursAndMinutes(m);
  }

  /** A negative count prints with a sign in both fields: -1 prints as "-1:-1". */
  lemma NegativeMinutesPrint()
    ensures MinutesToHHMM(-1) == IntToString(-1) + ":" + IntToString(-1)
    ensures IntToString(-1) == "-1"
    ensures MinutesToHHMM(-1) == "-1:-1"
  {
    MinusOneText();
    assert (-1) / 60 == -1;
    assert JsRemainder(-1, 60) == -1;
    assert HoursField(-1) == "-1" && MinutesField(-1) == "-1";
  }

  lemma MinusOneText()
    ensures IntToString(-1) == "-1"
  {
    assert NatToString(1) == "1";
  }

  /** A negative count does not survive the round trip: "-1:-1" reads as -61. */
  lemma NegativeMinutesDoNotRoundTrip()
    ensures MinutesToHHMM(-1) == "-1:-1"
    ensures ToMinutes(MinutesToHHMM(-1)) == Some(-61)
  {
    NegativeMinutesPrint();
    var f := IntToString(-1);
    NumberOfIntToString(-1);
    SignedDigitsHaveNoColon(-1);
    ToMinutesOfFields(f, f);
    assert MinutesToHHMM(-1) == f + ":" + f;
  }

  lemma SignedDigitsHaveNoColon(i: int)
    ensures ':' !in IntToString(i)
  {
    if i < 0 {
      DigitsHaveNoColon(NatToString(-i));
      assert IntToString(i) == "-" + NatToString(-i);
    } else {
      DigitsHaveNoColon(NatToString(i));
    }
  }
}
