/** The day-number arithmetic of `src/error_log.rs` and `src/cmd/dirty.rs`, against the
    proleptic Gregorian calendar with the leap rule of Appendix C of RFC 3339. */
module Calendar {

  datatype Date = Date(year: int, month: int, day: int)

  // ----- The calendar itself -----

  predicate IsLeap(year: int) {
    year % 4 == 0 && (year % 100 != 0 || year % 400 == 0)
  }

  function DaysInMonth(year: int, month: int): int {
    if month == 2 then (if IsLeap(year) then 29 else 28)
    else if month == 4 || month == 6 || month == 9 || month == 11 then 30 else 31
  }

  predicate IsDate(d: Date) {
    1 <= d.month <= 12 && 1 <= d.day <= DaysInMonth(d.year, d.month)
  }

  function NextDay(d: Date): Date {
    if d.day < DaysInMonth(d.year, d.month) then d.(day := d.day + 1)
    else if d.month < 12 then Date(d.year, d.month + 1, 1)
    else Date(d.year + 1, 1, 1)
  }

  /** Days from 0000-01-01 to the first of January of `year`; Dafny's `/` rounds down here. */
  function DaysBeforeYear(year: int): int {
    365 * year + (year + 3) / 4 - (year + 99) / 100 + (year + 399) / 400
  }

  function DaysBeforeMonth(year: int, month: int): int
    requires 1 <= month <= 12
    decreases month
  {
    if month == 1 then 0 else DaysBeforeMonth(year, month - 1) + DaysInMonth(year, month - 1)
  }

  /** Days since 1970-01-01. */
  function DayNumber(d: Date): int
    requires 1 <= d.month <= 12
  {
    DaysBeforeYear(d.year) - DaysBeforeYear(1970) + DaysBeforeMonth(d.year, d.month) + d.day - 1
  }

  /** The day count advances by one from each date to the next. */
  lemma DayNumberOfNext(d: Date)
    requires IsDate(d)
    ensures IsDate(NextDay(d)) && DayNumber(NextDay(d)) == DayNumber(d) + 1
  {
    MonthTable(d.year);
    YearLength(d.year);
  }

  /** One year is 366 days exactly when the leap rule says so. */
  lemma YearLength(year: int)
    ensures DaysBeforeYear(year + 1) - DaysBeforeYear(year) == if IsLeap(year) then 366 else 365
  {
    var e, r := year / 400, year % 400;
    assert year == 400 * e + r;
    var c, s := r / 100, r % 100;
    assert r == 100 * c + s;
    var q, t := s / 4, s % 4;
    assert s == 4 * q + t;
    assert (year + 3) / 4 == 100 * e + 25 * c + q + (if t == 0 then 0 else 1);
    assert (year + 4) / 4 == 100 * e + 25 * c + q + 1;
    assert (year + 99) / 100 == 4 * e + c + (if s == 0 then 0 else 1);
    assert (year + 100) / 100 == 4 * e + c + 1;
    assert (year + 399) / 400 == e + (if r == 0 then 0 else 1);
    assert (year + 400) / 400 == e + 1;
    assert year % 4 == t && year % 100 == s;
  }

  lemma MonthTable(year: int)
    ensures var l := if IsLeap(year) then 1 else 0;
            && DaysBeforeMonth(year, 1) == 0 && DaysBeforeMonth(year, 2) == 31
            && DaysBeforeMonth(year, 3) == 59 + l && DaysBeforeMonth(year, 4) == 90 + l
            && DaysBeforeMonth(year, 5) == 120 + l && DaysBeforeMonth(year, 6) == 151 + l
            && DaysBeforeMonth(year, 7) == 181 + l && DaysBeforeMonth(year, 8) == 212 + l
            && DaysBeforeMonth(year, 9) == 243 + l && DaysBeforeMonth(year, 10) == 273 + l
            && DaysBeforeMonth(year, 11) == 304 + l && DaysBeforeMonth(year, 12) == 334 + l
  {
    assert DaysBeforeMonth(year, 2) == 31;
    assert DaysBeforeMonth(year, 4) == DaysBeforeMonth(year, 3) + 31;
    assert DaysBeforeMonth(year, 6) == DaysBeforeMonth(year, 5) + 31;
    assert DaysBeforeMonth(year, 8) == DaysBeforeMonth(year, 7) + 31;
    assert DaysBeforeMonth(year, 10) == DaysBeforeMonth(year, 9) + 30;
    assert DaysBeforeMonth(year, 12) == DaysBeforeMonth(year, 11) + 30;
  }

  // ----- The code -----

  /** Rust's `/` on signed integers rounds toward zero. */
  function TruncDiv(a: int, b: int): int
    requires b > 0
  {
    if a >= 0 then a / b else -((-a) / b)
  }

  /** `as i32` keeps the low 32 bits, read as two's complement. */
  function AsI32(x: int): int {
    (x + 0x8000_0000) % 0x1_0000_0000 - 0x8000_0000
  }

  /** The 400-year cycle a shifted day lies in. */
  function Era(z: int): int {
    if z >= 0 then TruncDiv(z, 146097) else TruncDiv(z - 146096, 146097)
  }

  function YearOfEra(doe: int): int {
    (doe - doe / 1460 + doe / 36524 - doe / 146096) / 365
  }

  /** Day `doy` of the year starting on the first of March of year `y`. */
  function FromMarch(y: int, doy: int): Date {
    var mp := (5 * doy + 2) / 153;
    var day := doy - (153 * mp + 2) / 5 + 1;
    var month := if mp < 10 then mp + 3 else mp - 9;
    Date(y + (if month <= 2 then 1 else 0), month, day)
  }

  function CivilIn(era: int, doe: int): Date {
    var yoe := YearOfEra(doe);
    var doy := doe - (365 * yoe + yoe / 4 - yoe / 100);
    FromMarch(yoe + era * 400, doy)
  }

  /** The date before the year is narrowed to 32 bits. */
  function WideCivil(days: int): Date {
    var z := days + 719468;
    var era := Era(z);
    CivilIn(era, z - era * 146097)
  }

  /** `civil_from_days`. */
  function CivilFromDays(days: int): Date {
    var d := WideCivil(days);
    d.(year := AsI32(d.year))
  }

  // ----- The proof -----

  lemma EraIsFloor(z: int)
    ensures var era := Era(z); 0 <= z - era * 146097 <= 146096
  {
  }

  /** The approximate division finds the March-based year of a day of the cycle: `c` centuries,
      `q` four-year groups, `t` years and `doy` days. */
  lemma YearOfEraIsRight(doe: int, c: int, q: int, t: int, doy: int)
    requires 0 <= c <= 3 && 0 <= q <= 24 && 0 <= t <= 3 && 0 <= doy <= 365
    requires doy == 365 ==> t == 3 && (q != 24 || c == 3)
    requires doe == 36524 * c + 1461 * q + 365 * t + doy
    ensures YearOfEra(doe) == 100 * c + 4 * q + t
  {
    var rest := 24 * c + q + 365 * t + doy;
    var eps := if rest >= 1460 then 1 else 0;
    assert doe == 1460 * (25 * c + q) + rest;
    assert doe / 1460 == 25 * c + q + eps;
    var dc := 1461 * q + 365 * t + doy;
    assert doe == 36524 * c + dc && 0 <= dc <= 36524;
    assert dc == 36524 ==> c == 3;
    assert doe / 36524 - doe / 146096 == c;
    assert doe - doe / 1460 + doe / 36524 - doe / 146096 == 365 * (100 * c + 4 * q + t) + (doy - eps);
    assert 0 <= doy - eps <= 364;
  }

  /** Every day of the cycle has such a decomposition. */
  lemma SplitCycle(doe: int) returns (c: int, q: int, t: int, doy: int)
    requires 0 <= doe <= 146096
    ensures 0 <= c <= 3 && 0 <= q <= 24 && 0 <= t <= 3 && 0 <= doy <= 365
    ensures doy == 365 ==> t == 3 && (q != 24 || c == 3)
    ensures doe == 36524 * c + 1461 * q + 365 * t + doy
  {
    c := if doe == 146096 then 3 else doe / 36524;
    var dc := doe - 36524 * c;
    assert 0 <= dc <= 36524 && (dc == 36524 ==> c == 3);
    q := dc / 1461;
    var dq := dc - 1461 * q;
    t := if dq == 1460 then 3 else dq / 365;
    doy := dq - 365 * t;
  }

  lemma MonthOfYear(doy: int)
    requires 0 <= doy <= 365
    ensures var mp := (5 * doy + 2) / 153; var day := doy - (153 * mp + 2) / 5 + 1;
            && 0 <= mp <= 11 && day >= 1
            && day <= (if mp == 11 then 29 else if mp == 1 || mp == 3 || mp == 6 || mp == 8 then 30 else 31)
            && (mp == 11 && day == 29 ==> doy == 365)
  {
  }

  lemma ByFour(n: int, a: int, r: int)
    requires n == 4 * a + r && 0 <= r < 4
    ensures n / 4 == a && n % 4 == r
  {
  }

  lemma ByHundred(n: int, a: int, r: int)
    requires n == 100 * a + r && 0 <= r < 100
    ensures n / 100 == a && n % 100 == r
  {
  }

  lemma ByFourHundred(n: int, a: int, r: int)
    requires n == 400 * a + r && 0 <= r < 400
    ensures n / 400 == a && n % 400 == r
  {
  }

  /** The leap rule in the decomposition of a year into cycle, century, four-year group and year. */
  lemma LeapIn(e: int, c: int, q: int, t: int)
    requires 0 <= c <= 3 && 0 <= q <= 24 && 0 <= t <= 3
    ensures IsLeap(400 * e + 100 * c + 4 * q + t) <==> t == 0 && (q != 0 || c == 0)
  {
    var y := 400 * e + 100 * c + 4 * q + t;
    ByFour(y, 100 * e + 25 * c + q, t);
    ByHundred(y, 4 * e + c, 4 * q + t);
    ByFourHundred(y, e, 100 * c + 4 * q + t);
  }

  lemma DaysBeforeIn(e: int, c: int, q: int, t: int)
    requires 0 <= c <= 3 && 0 <= q <= 24 && 0 <= t <= 3
    ensures DaysBeforeYear(400 * e + 100 * c + 4 * q + t) ==
            146097 * e + 36524 * c + 1461 * q + 365 * t + (if t == 0 then 0 else 1)
            - (if q == 0 && t == 0 then 0 else 1) + (if c == 0 && q == 0 && t == 0 then 0 else 1)
  {
    var y := 400 * e + 100 * c + 4 * q + t;
    var k := if t == 0 then 0 else 1;
    ByFour(y + 3, 100 * e + 25 * c + q + k, t + 3 - 4 * k);
    var h := if q == 0 && t == 0 then 0 else 1;
    ByHundred(y + 99, 4 * e + c + h, 4 * q + t + 99 - 100 * h);
    var f := if c == 0 && q == 0 && t == 0 then 0 else 1;
    ByFourHundred(y + 399, e + f, 100 * c + 4 * q + t + 399 - 400 * f);
  }

  /** Days before the first of March of a year, in the same decomposition. */
  lemma MarchFirst(e: int, c: int, q: int, t: int)
    requires 0 <= c <= 3 && 0 <= q <= 24 && 0 <= t <= 3
    ensures var y := 400 * e + 100 * c + 4 * q + t;
            && DaysBeforeYear(y) + 59 + (if IsLeap(y) then 1 else 0)
               == 146097 * e + 36524 * c + 1461 * q + 365 * t + 60
            && (IsLeap(y + 1) <==> t == 3 && (q != 24 || c == 3))
  {
    hide DaysBeforeYear, IsLeap;
    LeapIn(e, c, q, t);
    DaysBeforeIn(e, c, q, t);
    if t < 3 {
      LeapIn(e, c, q, t + 1);
    } else if q < 24 {
      LeapIn(e, c, q + 1, 0);
    } else if c < 3 {
      LeapIn(e, c + 1, 0, 0);
    } else {
      LeapIn(e + 1, 0, 0, 0);
    }
  }

  /** The March-based year and day the code computes, and the days before them. */
  lemma MarchBased(days: int) returns (y: int, doy: int)
    ensures WideCivil(days) == FromMarch(y, doy)
    ensures 0 <= doy <= 365 && (doy == 365 ==> IsLeap(y + 1))
    ensures DaysBeforeYear(y) + 59 + (if IsLeap(y) then 1 else 0) + doy == days + 719528
  {
    hide FromMarch, DaysBeforeYear, IsLeap, YearOfEra;
    var z := days + 719468;
    EraIsFloor(z);
    var e := Era(z);
    var doe := z - e * 146097;
    var c, q, t, d := SplitCycle(doe);
    YearOfEraIsRight(doe, c, q, t, d);
    var yoe := 100 * c + 4 * q + t;
    assert yoe / 4 == 25 * c + q && yoe / 100 == c;
    doy := d;
    y := yoe + e * 400;
    MarchFirst(e, c, q, t);
  }

  /** A March-based day of the year is a calendar date. */
  lemma FromMarchIsRight(y: int, doy: int)
    requires 0 <= doy <= 365 && (doy == 365 ==> IsLeap(y + 1))
    ensures var d := FromMarch(y, doy);
            && IsDate(d)
            && DaysBeforeYear(d.year) + DaysBeforeMonth(d.year, d.month) + d.day - 1
               == DaysBeforeYear(y) + 59 + (if IsLeap(y) then 1 else 0) + doy
  {
    hide DaysBeforeYear, IsLeap;
    MonthOfYear(doy);
    MonthTable(y);
    MonthTable(y + 1);
    YearLength(y);
    var mp := (5 * doy + 2) / 153;
    assert mp in {0, 1, 2, 3, 4, 5, 6, 7, 8, 9, 10, 11};
  }

  /** Before narrowing, the computed date is a real date and the one the day count names. */
  lemma WideCivilIsRight(days: int)
    ensures IsDate(WideCivil(days)) && DayNumber(WideCivil(days)) == days
  {
    hide WideCivil, FromMarch, IsDate;
    var y, doy := MarchBased(days);
    FromMarchIsRight(y, doy);
    assert DaysBeforeYear(1970) == 719528;
  }

  lemma {:induction false} YearsApart(y: int, k: nat)
    ensures 365 * k <= DaysBeforeYear(y + k) - DaysBeforeYear(y) <= 366 * k
    decreases k
  {
    if k > 0 {
      YearsApart(y, k - 1);
      YearLength(y + k - 1);
    }
  }

  /** The part of the day count that depends on month and day. */
  lemma DayOfYear(d: Date)
    requires IsDate(d)
    ensures 0 <= DaysBeforeMonth(d.year, d.month) + d.day - 1 < if IsLeap(d.year) then 366 else 365
  {
    MonthTable(d.year);
    assert d.month in {1, 2, 3, 4, 5, 6, 7, 8, 9, 10, 11, 12};
  }

  /** Different dates have different day numbers. */
  lemma DayNumberInjective(a: Date, b: Date)
    requires IsDate(a) && IsDate(b) && DayNumber(a) == DayNumber(b)
    ensures a == b
  {
    hide DaysBeforeYear, DaysBeforeMonth;
    DayOfYear(a);
    DayOfYear(b);
    YearLength(a.year);
    YearLength(b.year);
    if a.year < b.year {
      YearsApart(a.year + 1, b.year - a.year - 1);
    } else if b.year < a.year {
      YearsApart(b.year + 1, a.year - b.year - 1);
    }
    MonthTable(a.year);
    assert a.month in {1, 2, 3, 4, 5, 6, 7, 8, 9, 10, 11, 12};
    assert b.month in {1, 2, 3, 4, 5, 6, 7, 8, 9, 10, 11, 12};
  }

  predicate FitsI32(x: int) {
    -0x8000_0000 <= x < 0x8000_0000
  }

  /** The day numbers whose date has a 32-bit year, by the calendar alone. */
  predicate YearFits(days: int) {
    DayNumber(Date(-0x8000_0000, 1, 1)) <= days < DayNumber(Date(0x8000_0000, 1, 1))
  }

  lemma YearFitsIsWideYear(days: int)
    ensures YearFits(days) <==> FitsI32(WideCivil(days).year)
  {
    hide WideCivil, DaysBeforeYear;
    WideCivilIsRight(days);
    var d := WideCivil(days);
    DayOfYear(d);
    YearLength(d.year);
    YearAgainst(d.year, -0x8000_0000);
    YearAgainst(d.year + 1, -0x8000_0000);
    YearAgainst(d.year, 0x8000_0000);
    YearAgainst(d.year + 1, 0x8000_0000);
  }

  lemma YearAgainst(y: int, bound: int)
    ensures y < bound ==> DaysBeforeYear(y) <= DaysBeforeYear(bound) - 365 * (bound - y)
    ensures y >= bound ==> DaysBeforeYear(y) >= DaysBeforeYear(bound) + 365 * (y - bound)
  {
    if y < bound {
      YearsApart(y, bound - y);
    } else {
      YearsApart(bound, y - bound);
    }
  }

  /** `civil_from_days` returns the calendar date of the given day for exactly the day numbers
      whose year fits the 32-bit result. */
  lemma CivilFromDaysExact(days: int)
    ensures IsDate(CivilFromDays(days)) && DayNumber(CivilFromDays(days)) == days <==> YearFits(days)
  {
    hide WideCivil, DayNumber, YearFits;
    WideCivilIsRight(days);
    YearFitsIsWideYear(days);
    var w, d := WideCivil(days), CivilFromDays(days);
    if !FitsI32(w.year) && IsDate(d) && DayNumber(d) == days {
      DayNumberInjective(w, d);
    }
  }

  /** It inverts the day count on every date with a 32-bit year. */
  lemma CivilInvertsDayNumber(d: Date)
    requires IsDate(d) && FitsI32(d.year)
    ensures CivilFromDays(DayNumber(d)) == d
  {
    hide WideCivil, DayNumber;
    WideCivilIsRight(DayNumber(d));
    DayNumberInjective(WideCivil(DayNumber(d)), d);
  }

  lemma DayZero()
    ensures CivilFromDays(0) == Date(1970, 1, 1)
  {
    assert DayNumber(Date(1970, 1, 1)) == 0;
    CivilInvertsDayNumber(Date(1970, 1, 1));
  }

  /** Consecutive day numbers give consecutive calendar days. */
  lemma CivilFromNextDay(days: int)
    requires YearFits(days) && YearFits(days + 1)
    ensures CivilFromDays(days + 1) == NextDay(CivilFromDays(days))
  {
    hide WideCivil, DayNumber, YearFits, NextDay;
    YearFitsIsWideYear(days);
    YearFitsIsWideYear(days + 1);
    WideCivilIsRight(days);
    WideCivilIsRight(days + 1);
    DayNumberOfNext(WideCivil(days));
    DayNumberInjective(NextDay(WideCivil(days)), WideCivil(days + 1));
  }

  // ----- Times of day -----

  datatype Stamp = Stamp(date: Date, hour: nat, minute: nat, second: nat)

  /** `epoch_to_ymdhms` from its day of the era on: the algorithm written a second time, on
      32-bit intermediates. */
  function EpochDateIn(era: int, doe: int): Date {
    var yoe := (doe - doe / 1460 + doe / 36524 - doe / 146096) / 365;
    var y := yoe + era * 400;
    var doy := doe - (365 * yoe + yoe / 4 - yoe / 100);
    var mp := (5 * doy + 2) / 153;
    var d := doy - (153 * mp + 2) / 5 + 1;
    var m := if mp < 10 then mp + 3 else mp - 9;
    Date(AsI32(if m <= 2 then y + 1 else y), m, d)
  }

  function EpochDate(days: nat): Date {
    var z := days + 719468;
    var era := z / 146097;
    EpochDateIn(era, z - era * 146097)
  }

  /** `epoch_to_ymdhms`. */
  function EpochToYmdhms(secs: nat): Stamp {
    var rem := secs % 86400;
    Stamp(EpochDate(secs / 86400), rem / 3600, (rem % 3600) / 60, rem % 60)
  }

  /** The fields `rfc3339_utc_now` prints. */
  function Rfc3339Fields(secs: nat): Stamp {
    var sod := secs % 86400;
    Stamp(CivilFromDays(secs / 86400), sod / 3600, (sod / 60) % 60, sod % 60)
  }

  /** The second a stamp names. */
  function SecondNumber(s: Stamp): int
    requires 1 <= s.date.month <= 12
  {
    DayNumber(s.date) * 86400 + s.hour * 3600 + s.minute * 60 + s.second
  }

  lemma SameInCycle(era: int, doe: int)
    ensures var d := CivilIn(era, doe); EpochDateIn(era, doe) == d.(year := AsI32(d.year))
  {
    hide AsI32;
  }

  lemma SameDate(days: nat)
    ensures EpochDate(days) == CivilFromDays(days)
  {
    hide EpochDateIn, CivilIn, AsI32;
    var z := days + 719468;
    assert Era(z) == z / 146097;
    SameInCycle(Era(z), z - Era(z) * 146097);
  }

  lemma SameMinute(rem: nat)
    requires rem < 86400
    ensures (rem % 3600) / 60 == (rem / 60) % 60
  {
    assert rem / 60 == 60 * (rem / 3600) + (rem % 3600) / 60;
  }

  /** The two implementations agree on every second, also where the year does not fit. */
  lemma StampsAgree(secs: nat)
    ensures EpochToYmdhms(secs) == Rfc3339Fields(secs)
  {
    hide EpochDate, CivilFromDays;
    SameDate(secs / 86400);
    SameMinute(secs % 86400);
  }

  /** While the year fits, the printed stamp is valid and names the given second. */
  lemma StampRoundTrip(secs: nat)
    requires YearFits(secs / 86400)
    ensures var s := Rfc3339Fields(secs);
            && IsDate(s.date) && s.hour < 24 && s.minute < 60 && s.second < 60
            && SecondNumber(s) == secs
  {
    hide DayNumber, YearFits, CivilFromDays;
    CivilFromDaysExact(secs / 86400);
    var rem := secs % 86400;
    assert rem / 60 == 60 * (rem / 3600) + (rem / 60) % 60;
  }
}
