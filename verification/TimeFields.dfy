/**
 FILETIME conversion: civil_from_days and RtlTimeToTimeFields, and the interval
 conversion of the waits (src/xbox_krnl.cpp).
 */
module TimeFields {

  // ---------------------------------------------------------------------
  // C arithmetic

  /** Division and remainder as C computes them: truncated toward zero. */
  function CDiv(a: int, b: int): int
    requires b > 0
  {
    if a >= 0 then a / b else -((-a) / b)
  }

  function CRem(a: int, b: int): int
    requires b > 0
  {
    a - b * CDiv(a, b)
  }

  // ---------------------------------------------------------------------
  // The reference: the proleptic Gregorian calendar

  datatype Date = Date(year: int, month: int, day: int)

  predicate Leap(y: int) {
    y % 4 == 0 && (y % 100 != 0 || y % 400 == 0)
  }

  function MonthLength(leap: bool, m: int): int
    requires 1 <= m <= 12
  {
    if m == 2 then (if leap then 29 else 28)
    else if m == 4 || m == 6 || m == 9 || m == 11 then 30
    else 31
  }

  predicate ValidDate(x: Date) {
    1 <= x.month <= 12 && 1 <= x.day <= MonthLength(Leap(x.year), x.month)
  }

  function NextDay(x: Date): (r: Date)
    requires ValidDate(x)
    ensures ValidDate(r)
  {
    if x.day < MonthLength(Leap(x.year), x.month) then Date(x.year, x.month, x.day + 1)
    else if x.month < 12 then Date(x.year, x.month + 1, 1)
    else Date(x.year + 1, 1, 1)
  }

  /** The lengths of the years from year 1 up to y, or back down to it. */
  function DaysBeforeYear(y: int): int
    decreases if y > 1 then y - 1 else 1 - y
  {
    if y > 1 then DaysBeforeYear(y - 1) + DaysInYear(Leap(y - 1))
    else if y < 1 then DaysBeforeYear(y + 1) - DaysInYear(Leap(y))
    else 0
  }

  function DaysBeforeMonth(leap: bool, m: int): int
    requires 1 <= m <= 12
    decreases m
  {
    if m == 1 then 0 else DaysBeforeMonth(leap, m - 1) + MonthLength(leap, m - 1)
  }

  /** The number of the day, 1 being 0001-01-01. */
  function DayNumber(x: Date): int
    requires 1 <= x.month <= 12
  {
    DaysBeforeYear(x.year) + DaysBeforeMonth(Leap(x.year), x.month) + x.day
  }

  const EPOCH: int := 719163      // DayNumber of 1970-01-01
  const FILETIME_EPOCH: int := 134774  // days from 1601-01-01 to 1970-01-01

  function DaysInYear(leap: bool): int {
    if leap then 366 else 365
  }

  lemma MonthTable(leap: bool)
    ensures DaysBeforeMonth(leap, 1) == 0 && DaysBeforeMonth(leap, 2) == 31
    ensures forall m :: 3 <= m <= 12 ==>
              DaysBeforeMonth(leap, m) == (if leap then 60 else 59) + (153 * (m - 3) + 2) / 5
    ensures DaysBeforeMonth(leap, 12) + 31 == DaysInYear(leap)
  {
    var b := if leap then 60 else 59;
    assert DaysBeforeMonth(leap, 2) == 31;
    assert DaysBeforeMonth(leap, 3) == b;
    assert DaysBeforeMonth(leap, 4) == b + 31;
    assert DaysBeforeMonth(leap, 5) == b + 61;
    assert DaysBeforeMonth(leap, 6) == b + 92;
    assert DaysBeforeMonth(leap, 7) == b + 122;
    assert DaysBeforeMonth(leap, 8) == b + 153;
    assert DaysBeforeMonth(leap, 9) == b + 184;
    assert DaysBeforeMonth(leap, 10) == b + 214;
    assert DaysBeforeMonth(leap, 11) == b + 245;
    assert DaysBeforeMonth(leap, 12) == b + 275;
  }

  lemma YearLength(y: int)
    ensures DaysBeforeYear(y + 1) == DaysBeforeYear(y) + DaysInYear(Leap(y))
  {
  }

  /** 365 days a year and one more for every leap year: the closed form. */
  lemma {:induction false} DaysBeforeYearIs(y: int)
    ensures DaysBeforeYear(y) == 365 * (y - 1) + (y - 1) / 4 - (y - 1) / 100 + (y - 1) / 400
    decreases if y > 1 then y - 1 else 1 - y
  {
    if y > 1 {
      DaysBeforeYearIs(y - 1);
      LeapDays(y - 1);
    } else if y < 1 {
      DaysBeforeYearIs(y + 1);
      LeapDays(y);
    }
  }

  lemma LeapDays(y: int)
    ensures y / 4 - y / 100 + y / 400 == (y - 1) / 4 - (y - 1) / 100 + (y - 1) / 400 + if Leap(y) then 1 else 0
  {
    CountMultiples4(y);
    CountMultiples100(y);
    CountMultiples400(y);
    MultiplesNest(y);
  }

  lemma CountMultiples4(y: int)
    ensures y / 4 == (y - 1) / 4 + if y % 4 == 0 then 1 else 0
  {
    var q, r, q', r' := y / 4, y % 4, (y - 1) / 4, (y - 1) % 4;
    assert y == 4 * q + r && y - 1 == 4 * q' + r';
    if r == 0 {
      assert 4 * (q - q') == r' + 1;
    } else {
      assert 4 * (q - q') == r' - (r - 1);
    }
  }

  lemma CountMultiples100(y: int)
    ensures y / 100 == (y - 1) / 100 + if y % 100 == 0 then 1 else 0
  {
    var q, r, q', r' := y / 100, y % 100, (y - 1) / 100, (y - 1) % 100;
    assert y == 100 * q + r && y - 1 == 100 * q' + r';
    if r == 0 {
      assert 100 * (q - q') == r' + 1;
    } else {
      assert 100 * (q - q') == r' - (r - 1);
    }
  }

  lemma CountMultiples400(y: int)
    ensures y / 400 == (y - 1) / 400 + if y % 400 == 0 then 1 else 0
  {
    var q, r, q', r' := y / 400, y % 400, (y - 1) / 400, (y - 1) % 400;
    assert y == 400 * q + r && y - 1 == 400 * q' + r';
    if r == 0 {
      assert 400 * (q - q') == r' + 1;
    } else {
      assert 400 * (q - q') == r' - (r - 1);
    }
  }

  lemma MultiplesNest(y: int)
    ensures y % 400 == 0 ==> y % 100 == 0
    ensures y % 100 == 0 ==> y % 4 == 0
  {
    NestOne(y, y / 400, y % 400, y / 100, y % 100);
    NestTwo(y, y / 100, y % 100, y / 4, y % 4);
  }

  lemma NestOne(y: int, q: int, r: int, q': int, r': int)
    requires y == 400 * q + r == 100 * q' + r' && 0 <= r' < 100
    ensures r == 0 ==> r' == 0
  {
    if r == 0 {
      assert r' == 100 * (4 * q - q');
    }
  }

  lemma NestTwo(y: int, q: int, r: int, q': int, r': int)
    requires y == 100 * q + r == 4 * q' + r' && 0 <= r' < 4
    ensures r == 0 ==> r' == 0
  {
    if r == 0 {
      assert r' == 4 * (25 * q - q');
    }
  }

  // ---------------------------------------------------------------------
  // civil_from_days

  /** The March-based year of a 400-year era that contains day doe of the era. */
  function YearOfEra(doe: nat): int {
    (doe - doe / 1460 + doe / 36524 - doe / 146096) / 365
  }

  function CivilFromDays(z0: int): Date {
    var z := z0 + 719468;
    var era := CDiv(if z >= 0 then z else z - 146096, 146097);
    var doe := z - era * 146097;
    if doe < 0 then Date(0, 0, 0)   // never: see EraSplit
    else CivilOfYear(era, doe, YearOfEra(doe))
  }

  /** The rest of civil_from_days, from the year of the era on. */
  function CivilOfYear(era: int, doe: int, yoe: int): Date {
    var doy := doe - (365 * yoe + yoe / 4 - yoe / 100);
    var mp := (5 * doy + 2) / 153;
    var d := doy - (153 * mp + 2) / 5 + 1;
    var m := if mp < 10 then mp + 3 else mp - 9;
    Date(yoe + era * 400 + (if m <= 2 then 1 else 0), m, d)
  }

  lemma EraSplit(z: int)
    ensures var era := CDiv(if z >= 0 then z else z - 146096, 146097);
            0 <= z - era * 146097 < 146097
  {
  }

  /**
   Year y = 100c + 4q + r of the era starts on day 36524c + 1461q + 365r. The closed
   form finds y again from any of its days, including 29 February of a leap year.
   */
  lemma YearOfEraIs(c: int, q: int, r: int, k: int)
    requires 0 <= c <= 3 && 0 <= q <= 24 && 0 <= r <= 3 && 0 <= k <= 365
    requires k == 365 ==> r == 3 && (q < 24 || c == 3)
    ensures YearOfEra(36524 * c + 1461 * q + 365 * r + k) == 100 * c + 4 * q + r
  {
    var doe := 36524 * c + 1461 * q + 365 * r + k;
    var rest := 24 * c + q + 365 * r + k;
    assert doe == 1460 * (25 * c + q) + rest;
    var last := q == 24 && r == 3 && k == 365;
    assert doe / 1460 == 25 * c + q + if rest >= 1460 then 1 else 0;
    assert doe / 36524 == c + if last then 1 else 0;
    assert doe / 146096 == if last then 1 else 0;
  }

  /** Every day of an era is day k of some year of it, in the mixed radix of century, leap cycle and year. */
  lemma DayOfEraSplit(doe: int) returns (c: int, q: int, r: int, k: int)
    requires 0 <= doe < 146097
    ensures 0 <= c <= 3 && 0 <= q <= 24 && 0 <= r <= 3 && 0 <= k <= 365
    ensures k == 365 ==> r == 3 && (q < 24 || c == 3)
    ensures doe == 36524 * c + 1461 * q + 365 * r + k
  {
    c := if doe / 36524 > 3 then 3 else doe / 36524;
    var r1 := doe - 36524 * c;
    q := if r1 / 1461 > 24 then 24 else r1 / 1461;
    var r2 := r1 - 1461 * q;
    r := if r2 / 365 > 3 then 3 else r2 / 365;
    k := r2 - 365 * r;
  }

  /** The day number of 1 March of the March-based year y. */
  lemma FirstOfMarch(era: int, yoe: int, c: int, q: int, r: int)
    requires 0 <= c <= 3 && 0 <= q <= 24 && 0 <= r <= 3 && yoe == 100 * c + 4 * q + r
    ensures DaysBeforeYear(400 * era + yoe + 1) == 146097 * era + 36524 * c + 1461 * q + 365 * r
  {
    var y := 400 * era + yoe;
    DaysBeforeYearIs(y + 1);
    assert y / 4 == 100 * era + 25 * c + q;
    assert y / 100 == 4 * era + c;
    assert y / 400 == era;
  }

  lemma LeapInEra(era: int, yoe: int, c: int, q: int, r: int)
    requires 0 <= c <= 3 && 0 <= q <= 24 && 0 <= r <= 3 && yoe == 100 * c + 4 * q + r
    ensures Leap(400 * era + yoe + 1) <==> r == 3 && (q < 24 || c == 3)
  {
    Mod4(100 * era + 25 * c + q, r + 1);
    Mod100(4 * era + c, 4 * q + r + 1);
    Mod400(era, yoe + 1);
  }

  lemma Mod4(a: int, b: int)
    requires 1 <= b <= 4
    ensures (4 * a + b) % 4 == 0 <==> b == 4
  {
  }

  lemma Mod100(a: int, b: int)
    requires 1 <= b <= 100
    ensures (100 * a + b) % 100 == 0 <==> b == 100
  {
  }

  lemma Mod400(a: int, b: int)
    requires 1 <= b <= 400
    ensures (400 * a + b) % 400 == 0 <==> b == 400
  {
  }

  /** Day k of the March-based year y as a date: months from March on belong to y, the last two to y + 1. */
  function MarchDate(y: int, k: int): Date {
    var mp := (5 * k + 2) / 153;
    Date(if mp < 10 then y else y + 1, if mp < 10 then mp + 3 else mp - 9, k - (153 * mp + 2) / 5 + 1)
  }

  lemma CivilIsMarchDate(z: int, era: int, doe: int, yoe: int, c: int, q: int, r: int, k: int)
    requires 0 <= c <= 3 && 0 <= q <= 24 && 0 <= r <= 3 && 0 <= k <= 365
    requires k == 365 ==> r == 3 && (q < 24 || c == 3)
    requires doe == 36524 * c + 1461 * q + 365 * r + k && yoe == 100 * c + 4 * q + r
    requires z + 719468 == 146097 * era + doe
    ensures CivilFromDays(z) == MarchDate(400 * era + yoe, k)
  {
    hide CivilFromDays, CivilOfYear, YearOfEra, MarchDate;
    CivilVia(z, era, doe);
    YearOfEraIs(c, q, r, k);
    CivilOfYearIs(era, doe, yoe, c, q, r, k);
  }

  lemma CivilVia(z: int, era: int, doe: int)
    requires 0 <= doe < 146097 && z + 719468 == 146097 * era + doe
    ensures CivilFromDays(z) == CivilOfYear(era, doe, YearOfEra(doe))
  {
    hide CivilOfYear, YearOfEra, CDiv;
    EraIs(z + 719468, era, doe);
  }

  lemma EraIs(z: int, era: int, doe: int)
    requires 0 <= doe < 146097 && z == 146097 * era + doe
    ensures CDiv(if z >= 0 then z else z - 146096, 146097) == era
  {
  }

  lemma CivilOfYearIs(era: int, doe: int, yoe: int, c: int, q: int, r: int, k: int)
    requires 0 <= c <= 3 && 0 <= q <= 24 && 0 <= r <= 3 && 0 <= k <= 365
    requires doe == 36524 * c + 1461 * q + 365 * r + k && yoe == 100 * c + 4 * q + r
    ensures CivilOfYear(era, doe, yoe) == MarchDate(400 * era + yoe, k)
  {
    assert yoe / 4 == 25 * c + q && yoe / 100 == c;
    assert doe - (365 * yoe + yoe / 4 - yoe / 100) == k;
  }

  /** The month and day of day k, and how many days of the calendar year precede it. */
  lemma MarchDateInYear(leap: bool, leapNext: bool, k: int)
    requires 0 <= k <= 365 && (k == 365 ==> leapNext)
    ensures var x := MarchDate(0, k);
      && 1 <= x.month <= 12
      && (x.month >= 3 ==> 1 <= x.day <= MonthLength(leap, x.month)
                           && DaysBeforeMonth(leap, x.month) + x.day == k + (if leap then 61 else 60))
      && (x.month <= 2 ==> 1 <= x.day <= MonthLength(leapNext, x.month)
                           && DaysBeforeMonth(leapNext, x.month) + x.day == k - 305)
  {
    MonthTable(leap);
    MonthTable(leapNext);
  }

  /**
   civil_from_days is exact on every day number: it returns a date of the calendar, and
   that date's day number is the argument.
   */
  lemma CivilIsExact(z: int)
    ensures ValidDate(CivilFromDays(z))
    ensures DayNumber(CivilFromDays(z)) == z + EPOCH
  {
    EraSplit(z + 719468);
    var era := CDiv(if z + 719468 >= 0 then z + 719468 else z + 719468 - 146096, 146097);
    var c, q, r, k := DayOfEraSplit(z + 719468 - era * 146097);
    var yoe := 100 * c + 4 * q + r;
    CivilIsMarchDate(z, era, z + 719468 - era * 146097, yoe, c, q, r, k);
    FirstOfMarch(era, yoe, c, q, r);
    LeapInEra(era, yoe, c, q, r);
    MarchDateCounts(400 * era + yoe, k);
  }

  lemma MarchDateCounts(y: int, k: int)
    requires 0 <= k <= 365 && (k == 365 ==> Leap(y + 1))
    ensures ValidDate(MarchDate(y, k))
    ensures DayNumber(MarchDate(y, k)) == DaysBeforeYear(y + 1) + k - 305
  {
    MarchDateInYear(Leap(y), Leap(y + 1), k);
    YearLength(y);
  }

  // ---------------------------------------------------------------------
  // The other direction, and the calendar's own steps

  lemma DayInYear(x: Date)
    requires ValidDate(x)
    ensures DaysBeforeYear(x.year) < DayNumber(x) <= DaysBeforeYear(x.year + 1)
  {
    MonthTable(Leap(x.year));
    YearLength(x.year);
    OrdinalInYear(Leap(x.year), x.month, x.day);
  }

  lemma OrdinalInYear(leap: bool, m: int, d: int)
    requires 1 <= m <= 12 && 1 <= d <= MonthLength(leap, m)
    ensures 1 <= DaysBeforeMonth(leap, m) + d <= DaysInYear(leap)
  {
    MonthTable(leap);
  }

  lemma OrdinalInjective(leap: bool, m: int, d: int, m': int, d': int)
    requires 1 <= m <= 12 && 1 <= d <= MonthLength(leap, m) && 1 <= m' <= 12 && 1 <= d' <= MonthLength(leap, m')
    requires DaysBeforeMonth(leap, m) + d == DaysBeforeMonth(leap, m') + d'
    ensures m == m' && d == d'
  {
    if m < m' {
      MonthsGrow(leap, m + 1, m');
    } else if m' < m {
      MonthsGrow(leap, m' + 1, m);
    }
  }

  lemma {:induction false} MonthsGrow(leap: bool, a: int, b: int)
    requires 1 <= a <= b <= 12
    ensures DaysBeforeMonth(leap, a) <= DaysBeforeMonth(leap, b)
    decreases b - a
  {
    if a < b {
      MonthsGrow(leap, a, b - 1);
    }
  }

  lemma {:induction false} YearsGrow(a: int, b: int)
    requires a <= b
    ensures DaysBeforeYear(a) <= DaysBeforeYear(b)
    decreases b - a
  {
    if a < b {
      YearsGrow(a, b - 1);
      YearLength(b - 1);
    }
  }

  lemma YearDetermined(n: int, a: int, b: int)
    requires DaysBeforeYear(a) < n <= DaysBeforeYear(a + 1) && DaysBeforeYear(b) < n <= DaysBeforeYear(b + 1)
    ensures a == b
  {
    if a < b {
      YearsGrow(a + 1, b);
    } else if b < a {
      YearsGrow(b + 1, a);
    }
  }

  /** Different dates have different day numbers. */
  lemma DayNumberInjective(x: Date, y: Date)
    requires ValidDate(x) && ValidDate(y) && DayNumber(x) == DayNumber(y)
    ensures x == y
  {
    DayInYear(x);
    DayInYear(y);
    YearDetermined(DayNumber(x), x.year, y.year);
    OrdinalInjective(Leap(x.year), x.month, x.day, y.month, y.day);
  }

  /** civil_from_days inverts the day count on every date of the calendar. */
  lemma CivilInvertsDayNumber(x: Date)
    requires ValidDate(x)
    ensures CivilFromDays(DayNumber(x) - EPOCH) == x
  {
    CivilIsExact(DayNumber(x) - EPOCH);
    DayNumberInjective(CivilFromDays(DayNumber(x) - EPOCH), x);
  }

  lemma NextDayCounts(x: Date)
    requires ValidDate(x)
    ensures DayNumber(NextDay(x)) == DayNumber(x) + 1
  {
    if x.day == MonthLength(Leap(x.year), x.month) && x.month == 12 {
      YearLength(x.year);
      MonthTable(Leap(x.year));
      assert DaysBeforeMonth(Leap(x.year + 1), 1) == 0;
    }
  }

  /** One day later is the next day of the calendar. */
  lemma CivilFollowsTheCalendar(z: int)
    ensures ValidDate(CivilFromDays(z)) && CivilFromDays(z + 1) == NextDay(CivilFromDays(z))
  {
    var x, y := CivilFromDays(z), CivilFromDays(z + 1);
    CivilIsExact(z);
    CivilIsExact(z + 1);
    NextDayCounts(x);
    DayNumberInjective(y, NextDay(x));
  }

  /** The two epochs: Unix day 0 and FILETIME day 0. */
  lemma Epochs()
    ensures CivilFromDays(0) == Date(1970, 1, 1)
    ensures CivilFromDays(-FILETIME_EPOCH) == Date(1601, 1, 1)
  {
    EpochDayNumbers();
    CivilInvertsDayNumber(Date(1970, 1, 1));
    CivilInvertsDayNumber(Date(1601, 1, 1));
  }

  lemma EpochDayNumbers()
    ensures DayNumber(Date(1970, 1, 1)) == EPOCH
    ensures DayNumber(Date(1601, 1, 1)) == EPOCH - FILETIME_EPOCH
  {
    DaysBeforeYearIs(1601);
    DaysBeforeYearIs(1970);
  }

  // ---------------------------------------------------------------------
  // RtlTimeToTimeFields

  /** TIME_FIELDS: eight 16-bit words, the year as stored. */
  datatype Fields = Fields(
    yearWord: nat, month: int, day: int, hour: int, minute: int, second: int, millisecond: int, weekday: int)

  const DAY_UNITS: int := 864_000_000_000   // 100 ns units in a day

  function TimeToFields(ft: int): Fields {
    var q, r := CDiv(ft, DAY_UNITS), CRem(ft, DAY_UNITS);
    if r < 0 then FieldsOf(q - 1, r + DAY_UNITS) else FieldsOf(q, r)
  }

  /** The fields of the time `rem` units into day `days`, counted from 1601-01-01. */
  function FieldsOf(days: int, rem: int): Fields {
    var x := CivilFromDays(days - FILETIME_EPOCH);
    var total := rem / 10000;
    Fields(x.year % 0x1_0000, x.month, x.day,
           total / 3_600_000, (total / 60_000) % 60, (total / 1000) % 60, total % 1000,
           Weekday(days))
  }

  function Weekday(days: int): int {
    (CRem(days, 7) + 7 + 1) % 7
  }

  /** A 16-bit word read as the signed SHORT the structure declares. */
  function Short(w: nat): int {
    if w >= 0x8000 then w - 0x1_0000 else w
  }

  function DateOf(f: Fields): Date {
    Date(Short(f.yearWord), f.month, f.day)
  }

  predicate Int64(x: int) {
    -0x8000_0000_0000_0000 <= x < 0x8000_0000_0000_0000
  }

  /** The date stays within the 16-bit year for every 64-bit FILETIME. */
  lemma YearFits(z: int)
    requires -11_000_000 <= z <= 11_000_000
    ensures -0x8000 <= CivilFromDays(z).year < 0x8000
  {
    CivilIsExact(z);
    var x := CivilFromDays(z);
    DayInYear(x);
    if x.year >= 0x8000 {
      YearsGrow(0x8000, x.year);
    } else if x.year < -0x8000 {
      YearsGrow(x.year + 1, -0x8000);
    }
  }

  /** The code's truncated division, corrected for negative times, is floor division. */
  lemma FloorDays(ft: int, days: int, rem: int)
    requires 0 <= rem < DAY_UNITS && ft == DAY_UNITS * days + rem
    ensures TimeToFields(ft) == FieldsOf(days, rem)
  {
    var q := CDiv(ft, DAY_UNITS);
    if ft >= 0 || rem == 0 {
      assert q == days;
    } else {
      assert q == days + 1;
    }
  }

  /** Milliseconds since 1601-01-01, recombined from the eight fields. */
  function Milliseconds(f: Fields): int
    requires 1 <= f.month <= 12
  {
    (DayNumber(DateOf(f)) - DayNumber(Date(1601, 1, 1))) * 86_400_000
    + f.hour * 3_600_000 + f.minute * 60_000 + f.second * 1000 + f.millisecond
  }

  /**
   For every 64-bit FILETIME, before or after 1601: the fields are in range, name a date
   of the calendar, and recombine to the time in milliseconds, rounded down.
   */
  lemma FieldsAreExact(ft: int)
    requires Int64(ft)
    ensures var f := TimeToFields(ft);
      && ValidDate(DateOf(f))
      && 0 <= f.hour < 24 && 0 <= f.minute < 60 && 0 <= f.second < 60 && 0 <= f.millisecond < 1000 && 0 <= f.weekday < 7
      && Milliseconds(f) == ft / 10000
  {
    var days, rem := ft / DAY_UNITS, ft % DAY_UNITS;
    FloorDays(ft, days, rem);
    FieldsOfAreExact(days, rem);
    assert ft / 10000 == days * 86_400_000 + rem / 10000;
  }

  lemma FieldsOfAreExact(days: int, rem: int)
    requires 0 <= rem < DAY_UNITS && -10_800_000 <= days <= 10_800_000
    ensures var f := FieldsOf(days, rem);
      && ValidDate(DateOf(f))
      && 0 <= f.hour < 24 && 0 <= f.minute < 60 && 0 <= f.second < 60 && 0 <= f.millisecond < 1000 && 0 <= f.weekday < 7
      && Milliseconds(f) == days * 86_400_000 + rem / 10000
  {
    var f, x := FieldsOf(days, rem), CivilFromDays(days - FILETIME_EPOCH);
    CivilIsExact(days - FILETIME_EPOCH);
    YearFits(days - FILETIME_EPOCH);
    ShortRoundTrip(x.year);
    assert DateOf(f) == x;
    EpochDayNumbers();
    ClockSplit(rem / 10000);
  }

  lemma ShortRoundTrip(y: int)
    requires -0x8000 <= y < 0x8000
    ensures Short(y % 0x1_0000) == y
  {
  }

  lemma ClockSplit(total: int)
    requires 0 <= total < 86_400_000
    ensures var h, mi, s, ms := total / 3_600_000, (total / 60_000) % 60, (total / 1000) % 60, total % 1000;
      && 0 <= h < 24 && total == h * 3_600_000 + mi * 60_000 + s * 1000 + ms
  {
    assert total / 60_000 == (total / 1000) / 60;
    assert total / 3_600_000 == (total / 60_000) / 60;
  }

  /** The weekday advances by one a day in a cycle of seven; 1601-01-01, day 0, is Monday (1). */
  lemma WeekdayIsCyclic(ft: int, days: int, rem: int)
    requires 0 <= rem < DAY_UNITS && ft == DAY_UNITS * days + rem
    ensures TimeToFields(ft).weekday == (days + 1) % 7
  {
    FloorDays(ft, days, rem);
    FieldsWeekday(days, rem);
  }

  lemma FieldsWeekday(days: int, rem: int)
    ensures FieldsOf(days, rem).weekday == (days + 1) % 7
  {
    assert FieldsOf(days, rem).weekday == Weekday(days);
    WeekdayIs(days);
  }

  lemma WeekdayIs(days: int)
    ensures Weekday(days) == (days + 1) % 7
  {
  }

  // ---------------------------------------------------------------------
  // interval_to_ticks

  /** ceil_ms: truncated to 32 bits. */
  function CeilMs(units: nat): nat {
    ((units + 9999) / 10000) % 0x1_0000_0000
  }

  /** A relative interval q < 0, in 100 ns units, as (immediate, ticks). */
  function RelativeTicks(q: int): (bool, nat)
    requires q < 0
  {
    (CeilMs(-q) == 0, CeilMs(-q))
  }

  /** The exact number of milliseconds, rounded up. */
  function Ceiling(units: nat): (n: nat)
    ensures (n - 1) * 10000 < units <= n * 10000 || (units == 0 && n == 0)
  {
    (units + 9999) / 10000
  }

  /**
   A relative delay lasts the interval rounded up to whole milliseconds exactly when that
   is fewer than 2^32 ticks; a longer one is cut to 32 bits, and multiples of 2^32
   return at once.
   */
  lemma RelativeDelayIsExactBelow32Bits(q: int)
    requires Int64(q) && q < 0
    ensures RelativeTicks(q) == (false, Ceiling(-q)) <==> Ceiling(-q) < 0x1_0000_0000
    ensures RelativeTicks(q).0 <==> Ceiling(-q) % 0x1_0000_0000 == 0
  {
    var n := Ceiling(-q);
    assert n > 0;
    assert n < 0x1_0000_0000 ==> n % 0x1_0000_0000 == n;
  }
}
