/** The shard calendar: `year_month_utc` of crates/remo-eval/src/eval_run.rs against a
    proleptic Gregorian calendar defined by recursion over years and months. */
module Calendar {
  const I64_MIN: int := -0x8000_0000_0000_0000
  const I64_MAX: int := 0x7FFF_FFFF_FFFF_FFFF

  // ---- The reference calendar --------------------------------------------------------------

  predicate IsLeap(y: int) {
    y % 4 == 0 && (y % 100 != 0 || y % 400 == 0)
  }

  function YearLength(y: int): int {
    if IsLeap(y) then 366 else 365
  }

  function MonthLength(y: int, m: int): int {
    if m == 2 then (if IsLeap(y) then 29 else 28)
    else if m == 4 || m == 6 || m == 9 || m == 11 then 30
    else 31
  }

  /** Days from 1 January 1970 to 1 January of `y`. */
  function YearStart(y: int): int
    decreases if y < 1970 then 1970 - y else y - 1970
  {
    if y == 1970 then 0
    else if y > 1970 then YearStart(y - 1) + YearLength(y - 1)
    else YearStart(y + 1) - YearLength(y)
  }

  function MonthStart(y: int, m: int): int
    requires 1 <= m
  {
    if m == 1 then YearStart(y) else MonthStart(y, m - 1) + MonthLength(y, m - 1)
  }

  /** Day `day`, counted from 1 January 1970, lies in month `m` of year `y`. */
  ghost predicate InMonth(day: int, y: int, m: int) {
    1 <= m <= 12 && MonthStart(y, m) <= day < MonthStart(y, m) + MonthLength(y, m)
  }

  // ---- The code's arithmetic ---------------------------------------------------------------

  /** Rust's `/` truncates toward zero. */
  function TruncDiv(a: int, b: int): int
    requires b > 0
  {
    if a >= 0 then a / b else -((-a) / b)
  }

  function ToI32(x: int): int {
    (x + 0x8000_0000) % 0x1_0000_0000 - 0x8000_0000
  }

  predicate FitsI32(x: int) {
    -0x8000_0000 <= x < 0x8000_0000
  }

  /** The cast `started_at_secs as i64` of an unsigned 64-bit count. */
  function ToI64(x: int): int {
    (x + 0x8000_0000_0000_0000) % 0x1_0000_0000_0000_0000 - 0x8000_0000_0000_0000
  }

  function DayOf(secs: int): int {
    secs / 86400
  }

  /** The first half of `year_month_utc`: the year that begins on 1 March, and the day in it. */
  function MarchYearDay(days: int): (int, int) {
    var era := TruncDiv(if days >= 0 then days else days - 146096, 146097);
    var doe := days - era * 146097;
    var yoe := TruncDiv(doe - TruncDiv(doe, 1460) + TruncDiv(doe, 36524) - TruncDiv(doe, 146096), 365);
    (yoe + era * 400, doe - (365 * yoe + TruncDiv(yoe, 4) - TruncDiv(yoe, 100)))
  }

  function YearMonthUtc(secs: int): (int, int) {
    var (year, doy) := MarchYearDay(secs / 86400 + 719468);
    var y := ToI32(year);
    var mp := TruncDiv(5 * doy + 2, 153);
    var m := if mp < 10 then mp + 3 else mp - 9;
    (if m <= 2 then ToI32(y + 1) else y, m)
  }

  lemma DayDecidesMonth(s1: int, s2: int)
    requires DayOf(s1) == DayOf(s2)
    ensures YearMonthUtc(s1) == YearMonthUtc(s2)
  {
    hide MarchYearDay, TruncDiv, ToI32;
  }

  // ---- Closed forms ------------------------------------------------------------------------

  function LeapsThrough(y: int): int {
    y / 4 - y / 100 + y / 400
  }

  lemma LeapsStep(y: int)
    ensures LeapsThrough(y) - LeapsThrough(y - 1) == if IsLeap(y) then 1 else 0
  {
    DivStep(y, 4);
    DivStep(y, 100);
    DivStep(y, 400);
  }

  lemma DivStep(y: int, n: int)
    requires n == 4 || n == 100 || n == 400
    ensures y / n - (y - 1) / n == if y % n == 0 then 1 else 0
  {}

  lemma {:induction false} YearStartClosed(y: int)
    ensures YearStart(y) == 365 * (y - 1970) + LeapsThrough(y - 1) - 477
    decreases if y < 1970 then 1970 - y else y - 1970
  {
    if y > 1970 {
      YearStartClosed(y - 1);
      LeapsStep(y - 1);
    } else if y < 1970 {
      YearStartClosed(y + 1);
      LeapsStep(y);
    }
  }

  /** The start of 1 March of `y`; the years of the computation begin there. */
  function MarchStart(y: int): int {
    365 * y + LeapsThrough(y) - 719468
  }

  lemma MarchStartIs(y: int)
    ensures MonthStart(y, 3) == MarchStart(y)
    ensures MonthStart(y + 1, 1) == MarchStart(y) + 306
  {
    YearStartClosed(y);
    YearStartClosed(y + 1);
    LeapsStep(y);
    assert MonthStart(y, 3) == MonthStart(y, 2) + MonthLength(y, 2);
    assert MonthStart(y, 2) == MonthStart(y, 1) + MonthLength(y, 1);
  }

  /** Month `mp` of the March year `y`, where 0 is March and 11 the next February. */
  function ShiftedMonth(y: int, mp: int): (int, int) {
    if mp < 10 then (y, mp + 3) else (y + 1, mp - 9)
  }

  lemma ShiftedStart(y: int, mp: int)
    requires 0 <= mp <= 11
    ensures MonthStart(ShiftedMonth(y, mp).0, ShiftedMonth(y, mp).1) == MarchStart(y) + (153 * mp + 2) / 5
  {
    MarchStartIs(y);
    if 0 < mp < 10 {
      ShiftedStart(y, mp - 1);
      assert MonthStart(y, mp + 3) == MonthStart(y, mp + 2) + MonthLength(y, mp + 2);
    } else if mp == 11 {
      assert MonthStart(y + 1, 2) == MonthStart(y + 1, 1) + MonthLength(y + 1, 1);
    }
  }

  /** The day of the March year falls in the month the code picks; a 366th day needs a leap year. */
  lemma MonthOfDay(y: int, doy: int)
    requires 0 <= doy <= 365 && (doy == 365 ==> IsLeap(y + 1))
    ensures var mp := (5 * doy + 2) / 153;
            0 <= mp <= 11 && InMonth(MarchStart(y) + doy, ShiftedMonth(y, mp).0, ShiftedMonth(y, mp).1)
  {
    var mp := (5 * doy + 2) / 153;
    assert 0 <= mp <= 11;
    ShiftedStart(y, mp);
    var (cy, cm) := ShiftedMonth(y, mp);
    assert doy - (153 * mp + 2) / 5 >= 0;
    assert doy - (153 * mp + 2) / 5 < MonthLength(cy, cm);
  }

  // ---- The year within a 400-year era ------------------------------------------------------

  /** Centuries, four-year cycles, years and days of an era's day number. */
  lemma SplitEra(doe: int) returns (c: int, k: int, j: int, d: int)
    requires 0 <= doe < 146097
    ensures 0 <= c <= 3 && 0 <= k <= 24 && 0 <= j <= 3 && 0 <= d <= 365
    ensures doe == 36524 * c + 1461 * k + 365 * j + d
    ensures d == 365 ==> j == 3 && (k == 24 ==> c == 3)
  {
    c := if doe / 36524 < 3 then doe / 36524 else 3;
    var r := doe - 36524 * c;
    k := r / 1461;
    var r2 := r - 1461 * k;
    j := if r2 / 365 < 3 then r2 / 365 else 3;
    d := r2 - 365 * j;
  }

  /** The correction terms of the closed form cancel exactly the leap days. */
  lemma YearOfEra(c: int, k: int, j: int, d: int)
    requires 0 <= c <= 3 && 0 <= k <= 24 && 0 <= j <= 3 && 0 <= d <= 365
    requires d == 365 ==> j == 3 && (k == 24 ==> c == 3)
    ensures var doe := 36524 * c + 1461 * k + 365 * j + d;
            (doe - doe / 1460 + doe / 36524 - doe / 146096) / 365 == 100 * c + 4 * k + j
  {
    var doe := 36524 * c + 1461 * k + 365 * j + d;
    var rest := 24 * c + k + 365 * j + d;
    assert doe == 1460 * (25 * c + k) + rest;
    var carry := if rest >= 1460 then 1 else 0;
    assert doe / 1460 == 25 * c + k + carry;
    var last := if 1461 * k + 365 * j + d == 36524 then 1 else 0;
    assert last == 1 <==> k == 24 && j == 3 && d == 365;
    assert doe / 36524 == c + last;
    assert doe / 146096 == last;
    var v := 365 * (100 * c + 4 * k + j) + d - carry;
    assert doe - doe / 1460 + doe / 36524 - doe / 146096 == v;
    assert 0 <= d - carry <= 364;
  }

  lemma EraFloor(days: int)
    ensures TruncDiv(if days >= 0 then days else days - 146096, 146097) == days / 146097
  {}

  lemma WrapSuccessor(x: int)
    ensures ToI32(ToI32(x) + 1) == ToI32(x + 1)
  {}

  /** The March year and its day, as the code's closed form finds them. */
  lemma MarchYear(days: int) returns (my: int, d: int)
    ensures MarchStart(my) + d == days - 719468
    ensures 0 <= d <= 365 && (d == 365 ==> IsLeap(my + 1))
    ensures MarchYearDay(days) == (my, d)
  {
    hide IsLeap, MarchYearDay;
    var era := days / 146097;
    var doe := days - era * 146097;
    var c, k, j, d' := SplitEra(doe);
    d := d';
    YearOfEra(c, k, j, d);
    var yoe := 100 * c + 4 * k + j;
    assert yoe / 4 == 25 * c + k && yoe / 100 == c;
    my := yoe + 400 * era;
    EraLeaps(yoe, era);
    CodeYear(days, yoe, d);
    if d == 365 {
      assert my + 1 == 400 * era + 100 * c + 4 * (k + 1);
      LeapAfter(c, k, era);
    }
  }

  lemma CodeYear(days: int, yoe: int, d: int)
    requires var doe := days - days / 146097 * 146097;
             && yoe == (doe - doe / 1460 + doe / 36524 - doe / 146096) / 365 >= 0
             && d == doe - (365 * yoe + yoe / 4 - yoe / 100)
    ensures MarchYearDay(days) == (yoe + days / 146097 * 400, d)
  {
    EraFloor(days);
    var doe := days - days / 146097 * 146097;
    assert doe - doe / 1460 + doe / 36524 - doe / 146096 >= 0;
  }

  lemma EraLeaps(yoe: int, era: int)
    requires 0 <= yoe < 400
    ensures LeapsThrough(yoe + 400 * era) == yoe / 4 - yoe / 100 + 97 * era
  {
    assert (yoe + 400 * era) / 4 == yoe / 4 + 100 * era;
    assert (yoe + 400 * era) / 100 == yoe / 100 + 4 * era;
    assert (yoe + 400 * era) / 400 == era;
  }

  lemma Multiples(a: int, b: int)
    ensures (4 * a) % 4 == 0 && (400 * b) % 400 == 0
  {}

  lemma Remainder(q: int, r: int)
    requires 0 <= r < 100
    ensures (100 * q + r) % 100 == r
  {}

  lemma LeapAfter(c: int, k: int, era: int)
    requires 0 <= c <= 3 && 0 <= k <= 24 && (k == 24 ==> c == 3)
    ensures IsLeap(400 * era + 100 * c + 4 * (k + 1))
  {
    var q, r := 4 * era + c, 4 * (k + 1);
    Multiples(25 * q + k + 1, era + 1);
    if k < 24 { Remainder(q, r); }
  }

  /** The year and month before the cast to 32 bits. */
  lemma TrueYearMonth(secs: int) returns (y: int, m: int)
    ensures InMonth(DayOf(secs), y, m)
    ensures YearMonthUtc(secs) == (ToI32(y), m)
  {
    hide MonthStart, IsLeap, ToI32, MarchStart, MarchYearDay, MonthLength;
    var my, d := MarchYear(secs / 86400 + 719468);
    MonthOfDay(my, d);
    var mp := (5 * d + 2) / 153;
    WrapSuccessor(my);
    y, m := ShiftedMonth(my, mp).0, ShiftedMonth(my, mp).1;
  }

  // ---- The calendar is a partition, in order -----------------------------------------------

  lemma {:induction false} MonthsOrdered(y: int, m: int, n: int)
    requires 1 <= m <= n <= 13
    ensures MonthStart(y, m) <= MonthStart(y, n)
    ensures m < n ==> MonthStart(y, m) + MonthLength(y, m) <= MonthStart(y, n)
    decreases n - m
  {
    if m < n { MonthsOrdered(y, m, n - 1); }
  }

  lemma YearIsItsMonths(y: int)
    ensures MonthStart(y, 13) == YearStart(y + 1)
  {
    MarchStartIs(y);
    ShiftedStart(y, 9);
    assert MonthStart(y, 13) == MonthStart(y, 12) + MonthLength(y, 12);
  }

  lemma {:induction false} YearsOrdered(y: int, z: int)
    requires y <= z
    ensures YearStart(y) <= YearStart(z)
    decreases z - y
  {
    if y < z {
      YearsOrdered(y, z - 1);
      YearStartClosed(z);
      YearStartClosed(z - 1);
      LeapsStep(z - 1);
    }
  }

  predicate NotLater(y1: int, m1: int, y2: int, m2: int) {
    y1 < y2 || (y1 == y2 && m1 <= m2)
  }

  /** A later day is never in an earlier month; in particular a day is in one month only. */
  lemma MonthMonotone(d1: int, y1: int, m1: int, d2: int, y2: int, m2: int)
    requires d1 <= d2 && InMonth(d1, y1, m1) && InMonth(d2, y2, m2)
    ensures NotLater(y1, m1, y2, m2)
  {
    if y2 < y1 {
      YearIsItsMonths(y2);
      YearsOrdered(y2 + 1, y1);
      MonthsOrdered(y2, m2, 13);
      MonthsOrdered(y1, 1, m1);
    } else if y1 == y2 && m2 < m1 {
      MonthsOrdered(y1, m2, m1);
    }
  }

  /** Whenever the calendar year of the second fits 32 bits the code returns exactly that year
      and month; otherwise the year it returns is another one. */
  lemma {:induction false} YearMonthIsGregorian(secs: int, y: int, m: int)
    requires I64_MIN <= secs <= I64_MAX && InMonth(DayOf(secs), y, m)
    ensures YearMonthUtc(secs) == (ToI32(y), m)
    ensures YearMonthUtc(secs) == (y, m) <==> FitsI32(y)
  {
    hide InMonth, YearMonthUtc;
    var ty, tm := TrueYearMonth(secs);
    MonthMonotone(DayOf(secs), y, m, DayOf(secs), ty, tm);
    MonthMonotone(DayOf(secs), ty, tm, DayOf(secs), y, m);
  }

  /** The computed month never goes back as time goes on. */
  lemma {:induction false} YearMonthMonotone(s1: int, s2: int, y1: int, m1: int, y2: int, m2: int)
    requires I64_MIN <= s1 <= s2 <= I64_MAX
    requires InMonth(DayOf(s1), y1, m1) && InMonth(DayOf(s2), y2, m2) && FitsI32(y1) && FitsI32(y2)
    ensures NotLater(YearMonthUtc(s1).0, YearMonthUtc(s1).1, YearMonthUtc(s2).0, YearMonthUtc(s2).1)
  {
    YearMonthIsGregorian(s1, y1, m1);
    YearMonthIsGregorian(s2, y2, m2);
    MonthMonotone(DayOf(s1), y1, m1, DayOf(s2), y2, m2);
  }

  /** Two runs go to one shard exactly when they started in the same calendar month. */
  lemma {:induction false} SameShardIffSameMonth(s1: int, s2: int, y1: int, m1: int, y2: int, m2: int)
    requires I64_MIN <= s1 <= I64_MAX && I64_MIN <= s2 <= I64_MAX
    requires InMonth(DayOf(s1), y1, m1) && InMonth(DayOf(s2), y2, m2) && FitsI32(y1) && FitsI32(y2)
    ensures YearMonthUtc(s1) == YearMonthUtc(s2) <==> InMonth(DayOf(s1), y2, m2)
  {
    YearMonthIsGregorian(s1, y1, m1);
    YearMonthIsGregorian(s2, y2, m2);
    if InMonth(DayOf(s1), y2, m2) { YearMonthIsGregorian(s1, y2, m2); }
  }
}
