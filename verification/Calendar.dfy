/**
 The conversion between Gregorian dates and day numbers, written as the source computes it with
 divisions that truncate toward zero, and a calendar that only counts days.
 */
module Calendar {
  import opened Wrappers

  datatype Civil = Civil(year: int, month: int, day: int)

  const MAX_JULIAN: int := 536802342
  const INT_MAX: int := 0x7fff_ffff
  const UINT_RANGE: int := 0x1_0000_0000

  /** Division as C++ does it. */
  function Quot(a: int, b: int): int
    requires b > 0
  {
    if a >= 0 then a / b else -((-a) / b)
  }

  function Rem(a: int, b: int): int
    requires b > 0
  {
    a - b * Quot(a, b)
  }

  predicate LeapYear(y: int) {
    (Rem(y, 4) == 0 && Rem(y, 100) != 0) || Rem(y, 400) == 0
  }

  const MONTH_DAYS: seq<int> := [31, 28, 31, 30, 31, 30, 31, 31, 30, 31, 30, 31]

  predicate IsValid(c: Civil) {
    || (c.month == 2 && LeapYear(c.year) && c.day == 29)
    || !(c.month < 1 || c.month > 12 || c.day < 1 || c.day > MONTH_DAYS[c.month - 1])
  }

  /** The value of the closed formula. */
  function Formula(c: Civil): int {
    var y, m, d := c.year, c.month, c.day;
    Quot(1461 * (y + 4800 + Quot(m - 14, 12)), 4) + Quot(367 * (m - 2 - 12 * Quot(m - 14, 12)), 12)
    - Quot(3 * Quot(y + 4900 + Quot(m - 14, 12), 100), 4) + d - 32075
  }

  /** An invalid date is refused; the result is stored in an unsigned number. */
  function GregToJul(c: Civil): Option<int> {
    if IsValid(c) then Some(Formula(c) % UINT_RANGE) else None
  }

  /** The local variables of the conversion back, in the order they are computed. */
  datatype Locals = Locals(l0: int, n: int, l1: int, i: int, l2: int, j: int, d: int, l3: int, m: int, y: int)

  function JulLocals(jd: int): Locals {
    var l0 := jd + 68569;
    var n := Quot(4 * l0, 146097);
    var l1 := l0 - Quot(146097 * n + 3, 4);
    var i := Quot(4000 * (l1 + 1), 1461001);
    var l2 := l1 - Quot(1461 * i, 4) + 31;
    var j := Quot(80 * l2, 2447);
    var d := l2 - Quot(2447 * j, 80);
    var l3 := Quot(j, 11);
    Locals(l0, n, l1, i, l2, j, d, l3, j + 2 - 12 * l3, 100 * (n - 49) + i + l3)
  }

  function JulToGreg(jd: int): Civil {
    var v := JulLocals(jd);
    Civil(v.y, v.m, v.d)
  }

  predicate Int32(x: int) {
    -INT_MAX - 1 <= x <= INT_MAX
  }

  /** Every value the conversion back computes on the way is a 32 bit signed number. */
  predicate JulFits(jd: int) {
    var v := JulLocals(jd);
    && Int32(v.l0) && Int32(4 * v.l0) && Int32(v.n)
    && Int32(146097 * v.n) && Int32(146097 * v.n + 3) && Int32(v.l1)
    && Int32(v.l1 + 1) && Int32(4000 * (v.l1 + 1)) && Int32(v.i)
    && Int32(1461 * v.i) && Int32(v.l1 - Quot(1461 * v.i, 4)) && Int32(v.l2)
    && Int32(80 * v.l2) && Int32(v.j) && Int32(2447 * v.j) && Int32(v.d)
    && Int32(v.l3) && Int32(v.j + 2) && Int32(12 * v.l3) && Int32(v.m)
    && Int32(v.n - 49) && Int32(100 * (v.n - 49)) && Int32(100 * (v.n - 49) + v.i) && Int32(v.y)
  }

  /** The same for the closed formula, evaluated from left to right. */
  predicate GregFits(c: Civil) {
    var y, m, d := c.year, c.month, c.day;
    var a := Quot(m - 14, 12);
    var t1 := 1461 * (y + 4800 + a);
    var t2 := 367 * (m - 2 - 12 * a);
    var t3 := 3 * Quot(y + 4900 + a, 100);
    && Int32(m - 14) && Int32(y + 4800) && Int32(y + 4800 + a) && Int32(t1)
    && Int32(12 * a) && Int32(m - 2) && Int32(m - 2 - 12 * a) && Int32(t2)
    && Int32(y + 4900) && Int32(y + 4900 + a) && Int32(t3)
    && Int32(Quot(t1, 4) + Quot(t2, 12)) && Int32(Quot(t1, 4) + Quot(t2, 12) - Quot(t3, 4))
    && Int32(Quot(t1, 4) + Quot(t2, 12) - Quot(t3, 4) + d) && Int32(Formula(c))
  }

  // ---- a calendar that only counts ----

  function MonthLength(y: int, m: int): int
    requires 1 <= m <= 12
  {
    if m == 2 && LeapYear(y) then 29 else MONTH_DAYS[m - 1]
  }

  function YearLength(y: int): int {
    if LeapYear(y) then 366 else 365
  }

  const FIRST_YEAR: int := -4713

  function DaysBeforeYear(y: int): int
    requires y >= FIRST_YEAR
    decreases y - FIRST_YEAR
  {
    if y == FIRST_YEAR then 0 else DaysBeforeYear(y - 1) + YearLength(y - 1)
  }

  function DaysBeforeMonth(y: int, m: int): int
    requires 1 <= m <= 12
  {
    if m == 1 then 0 else DaysBeforeMonth(y, m - 1) + MonthLength(y, m - 1)
  }

  /** Days since 24 November of the first year, counted year by year and month by month. */
  function DayCount(c: Civil): int
    requires IsValid(c) && c.year >= FIRST_YEAR
  {
    DaysBeforeYear(c.year) + DaysBeforeMonth(c.year, c.month) + c.day - 328
  }

  function NextDay(c: Civil): Civil
    requires IsValid(c)
  {
    if c.day < MonthLength(c.year, c.month) then c.(day := c.day + 1)
    else if c.month < 12 then Civil(c.year, c.month + 1, 1)
    else Civil(c.year + 1, 1, 1)
  }

  predicate Before(a: Civil, b: Civil) {
    a.year < b.year || (a.year == b.year && (a.month < b.month || (a.month == b.month && a.day < b.day)))
  }

  // ---- the formula counts days ----

  lemma ValidDay(c: Civil)
    ensures IsValid(c) <==> 1 <= c.month <= 12 && 1 <= c.day <= MonthLength(c.year, c.month)
  {
  }

  /** Years that begin in March, 4800 years before year 0, so that every quantity is positive. */
  function MarchYear(c: Civil): int {
    c.year + 4800 - (if c.month <= 2 then 1 else 0)
  }

  function MarchMonth(c: Civil): int {
    if c.month <= 2 then c.month + 10 else c.month - 2
  }

  /** Days up to the year, by the pattern of 4, 100 and 400 years. */
  function YearDays(y: int): int {
    365 * y + y / 4 - 3 * (y / 100 + 1) / 4
  }

  function MonthOffset(m: int): int {
    367 * m / 12
  }

  lemma FormulaByMarch(c: Civil)
    requires c.year >= FIRST_YEAR && 1 <= c.month <= 12
    ensures Formula(c) == YearDays(MarchYear(c)) + MonthOffset(MarchMonth(c)) + c.day - 32075
  {
    var y := MarchYear(c);
    assert Quot(c.month - 14, 12) == if c.month <= 2 then -1 else 0;
    assert 1461 * y / 4 == 365 * y + y / 4;
    assert (y + 100) / 100 == y / 100 + 1;
  }

  lemma LeapByRemainder(y: int)
    ensures LeapYear(y) <==> (y % 4 == 0 && y % 100 != 0) || y % 400 == 0
    ensures LeapYear(y) <==> LeapYear(y + 4800)
  {
    hide LeapYear;
    LeapEuclid(y);
    LeapEuclid(y + 4800);
    SameRemainders(12, y);
  }

  lemma RemZero(y: int)
    ensures Rem(y, 4) == 0 <==> y % 4 == 0
    ensures Rem(y, 100) == 0 <==> y % 100 == 0
    ensures Rem(y, 400) == 0 <==> y % 400 == 0
  {
    hide Rem;
    Rem4(y);
    Rem100(y);
    Rem400(y);
  }

  lemma Rem4(y: int)
    ensures Rem(y, 4) == 0 <==> y % 4 == 0
  {
    assert y == 4 * (y / 4) + y % 4 && -y == 4 * ((-y) / 4) + (-y) % 4;
  }

  lemma Rem100(y: int)
    ensures Rem(y, 100) == 0 <==> y % 100 == 0
  {
    assert y == 100 * (y / 100) + y % 100 && -y == 100 * ((-y) / 100) + (-y) % 100;
  }

  lemma Rem400(y: int)
    ensures Rem(y, 400) == 0 <==> y % 400 == 0
  {
    assert y == 400 * (y / 400) + y % 400 && -y == 400 * ((-y) / 400) + (-y) % 400;
  }

  lemma LeapEuclid(y: int)
    ensures LeapYear(y) <==> (y % 4 == 0 && y % 100 != 0) || y % 400 == 0
  {
    hide Rem;
    RemZero(y);
  }

  /** The pattern within 400 years. */
  function Pattern(r: int): int {
    365 * r + r / 4 - 3 * (r / 100 + 1) / 4
  }

  lemma YearDaysSplit(q: int, r: int)
    requires q >= 0 && 0 <= r < 400
    ensures YearDays(400 * q + r) == 146097 * q + Pattern(r)
  {
    var y := 400 * q + r;
    assert y / 4 == 100 * q + r / 4;
    assert y / 100 == 4 * q + r / 100;
  }

  predicate LeapInPattern(r: int) {
    r % 4 == 0 && (r % 100 != 0 || r == 0)
  }

  lemma PatternStep(r: int)
    requires 0 <= r < 399
    ensures Pattern(r + 1) == Pattern(r) + (if LeapInPattern(r + 1) then 366 else 365)
  {
    var c := r / 100;
    assert c == 0 || c == 1 || c == 2 || c == 3;
  }

  lemma SameRemainders(q: int, r: int)
    ensures (400 * q + r) % 4 == r % 4
    ensures (400 * q + r) % 100 == r % 100
    ensures (400 * q + r) % 400 == r % 400
  {
    var y := 400 * q + r;
    assert y / 4 == 100 * q + r / 4;
    assert y / 100 == 4 * q + r / 100;
    assert y / 400 == q + r / 400;
  }

  lemma LeapSplit(q: int, r: int)
    requires q >= 0 && 0 <= r < 400
    ensures LeapYear(400 * q + r) <==> LeapInPattern(r)
  {
    hide LeapYear;
    LeapEuclid(400 * q + r);
    SameRemainders(q, r);
  }

  /** From one March to the next there is a leap day if the second of the two years has it. */
  lemma YearDaysStep(y: int)
    requires y >= 0
    ensures YearDays(y + 1) == YearDays(y) + YearLength(y + 1)
  {
    hide YearDays, YearLength;
    var q, r := y / 400, y % 400;
    if r < 399 {
      StepInPattern(q, r);
    } else {
      StepToNextPattern(q);
    }
  }

  lemma StepInPattern(q: int, r: int)
    requires q >= 0 && 0 <= r < 399
    ensures YearDays(400 * q + r + 1) == YearDays(400 * q + r) + YearLength(400 * q + r + 1)
  {
    hide LeapYear, YearDays, Pattern, LeapInPattern;
    YearDaysSplit(q, r);
    YearDaysSplit(q, r + 1);
    PatternStep(r);
    LeapSplit(q, r + 1);
  }

  lemma StepToNextPattern(q: int)
    requires q >= 0
    ensures YearDays(400 * q + 400) == YearDays(400 * q + 399) + YearLength(400 * q + 400)
  {
    hide LeapYear, YearDays;
    YearDaysSplit(q, 399);
    YearDaysSplit(q + 1, 0);
    LeapSplit(q + 1, 0);
  }

  lemma YearStep(y: int)
    requires y >= FIRST_YEAR
    ensures Formula(Civil(y + 1, 1, 1)) == Formula(Civil(y, 1, 1)) + YearLength(y)
  {
    hide Formula, YearDays, LeapYear, MonthOffset;
    FormulaByMarch(Civil(y, 1, 1));
    FormulaByMarch(Civil(y + 1, 1, 1));
    YearDaysStep(y + 4799);
    LeapByRemainder(y);
  }

  lemma {:induction false} YearStart(y: int)
    requires y >= FIRST_YEAR
    ensures Formula(Civil(y, 1, 1)) == DaysBeforeYear(y) - 327
    decreases y - FIRST_YEAR
  {
    hide Formula, YearLength;
    if y == FIRST_YEAR {
      FirstYear();
    } else {
      YearStart(y - 1);
      YearStep(y - 1);
    }
  }

  lemma FirstYear()
    ensures Formula(Civil(FIRST_YEAR, 1, 1)) == -327
  {
    hide Formula;
    FormulaByMarch(Civil(FIRST_YEAR, 1, 1));
  }

  lemma MonthStep(y: int, m: int)
    requires y >= FIRST_YEAR && 1 <= m < 12
    ensures Formula(Civil(y, m + 1, 1)) == Formula(Civil(y, m, 1)) + MonthLength(y, m)
  {
    hide Formula, YearDays, LeapYear;
    FormulaByMarch(Civil(y, m, 1));
    FormulaByMarch(Civil(y, m + 1, 1));
    if m == 2 {
      YearDaysStep(y + 4799);
      LeapByRemainder(y);
    }
  }

  lemma {:induction false} MonthStart(y: int, m: int)
    requires y >= FIRST_YEAR && 1 <= m <= 12
    ensures Formula(Civil(y, m, 1)) == DaysBeforeYear(y) + DaysBeforeMonth(y, m) - 327
  {
    hide Formula;
    if m == 1 {
      YearStart(y);
    } else {
      MonthStart(y, m - 1);
      MonthStep(y, m - 1);
    }
  }

  lemma FormulaInDays(c: Civil)
    ensures Formula(c) == Formula(c.(day := 1)) + c.day - 1
  {
    hide Quot;
  }

  /** The closed formula agrees with counting. */
  lemma FormulaCountsDays(c: Civil)
    requires IsValid(c) && c.year >= FIRST_YEAR
    ensures Formula(c) == DayCount(c)
  {
    hide Formula;
    MonthStart(c.year, c.month);
    FormulaInDays(c);
  }

  // ---- order and succession ----

  lemma {:induction false} MonthsAscend(y: int, m1: int, m2: int)
    requires 1 <= m1 < m2 <= 12
    ensures DaysBeforeMonth(y, m1) + MonthLength(y, m1) <= DaysBeforeMonth(y, m2)
    decreases m2
  {
    if m1 < m2 - 1 {
      MonthsAscend(y, m1, m2 - 1);
    }
  }

  lemma WithinYear(c: Civil)
    requires IsValid(c)
    ensures 1 <= DaysBeforeMonth(c.year, c.month) + c.day <= YearLength(c.year)
  {
    ValidDay(c);
    assert DaysBeforeMonth(c.year, 12) + 31 == YearLength(c.year) by {
      YearIsItsMonths(c.year);
    }
    if c.month < 12 {
      MonthsAscend(c.year, c.month, 12);
    }
    if c.month > 1 {
      MonthsAscend(c.year, 1, c.month);
    }
  }

  lemma YearIsItsMonths(y: int)
    ensures DaysBeforeMonth(y, 12) + 31 == YearLength(y)
  {
    hide LeapYear;
    var leap := if LeapYear(y) then 1 else 0;
    assert DaysBeforeMonth(y, 1) == 0;
    assert DaysBeforeMonth(y, 2) == 31;
    assert DaysBeforeMonth(y, 3) == 59 + leap;
    assert DaysBeforeMonth(y, 4) == 90 + leap;
    assert DaysBeforeMonth(y, 5) == 120 + leap;
    assert DaysBeforeMonth(y, 6) == 151 + leap;
    assert DaysBeforeMonth(y, 7) == 181 + leap;
    assert DaysBeforeMonth(y, 8) == 212 + leap;
    assert DaysBeforeMonth(y, 9) == 243 + leap;
    assert DaysBeforeMonth(y, 10) == 273 + leap;
    assert DaysBeforeMonth(y, 11) == 304 + leap;
    assert DaysBeforeMonth(y, 12) == 334 + leap;
  }

  lemma {:induction false} YearsAscend(y1: int, y2: int)
    requires FIRST_YEAR <= y1 < y2
    ensures DaysBeforeYear(y1) + YearLength(y1) <= DaysBeforeYear(y2)
    decreases y2 - y1
  {
    hide LeapYear;
    if y1 < y2 - 1 {
      YearsAscend(y1, y2 - 1);
    }
  }

  lemma CountAscends(a: Civil, b: Civil)
    requires IsValid(a) && IsValid(b) && FIRST_YEAR <= a.year && FIRST_YEAR <= b.year
    requires Before(a, b)
    ensures DayCount(a) < DayCount(b)
  {
    hide LeapYear, DaysBeforeMonth, DaysBeforeYear;
    ValidDay(a);
    ValidDay(b);
    if a.year < b.year {
      YearsAscend(a.year, b.year);
      WithinYear(a);
      WithinYear(b);
    } else if a.month < b.month {
      MonthsAscend(a.year, a.month, b.month);
    }
  }

  /** Date order is number order. */
  lemma OrderAgrees(a: Civil, b: Civil)
    requires IsValid(a) && IsValid(b) && FIRST_YEAR <= a.year && FIRST_YEAR <= b.year
    ensures Before(a, b) <==> Formula(a) < Formula(b)
    ensures a == b <==> Formula(a) == Formula(b)
  {
    hide Formula, DayCount, IsValid;
    FormulaCountsDays(a);
    FormulaCountsDays(b);
    if Before(a, b) {
      CountAscends(a, b);
    } else if Before(b, a) {
      CountAscends(b, a);
    }
  }

  /** The next day of the calendar has the next number. */
  lemma NextDayNextNumber(c: Civil)
    requires IsValid(c) && FIRST_YEAR <= c.year
    ensures IsValid(NextDay(c)) && Formula(NextDay(c)) == Formula(c) + 1
  {
    hide Formula, LeapYear;
    var n := NextDay(c);
    ValidDay(c);
    ValidDay(n);
    FormulaCountsDays(c);
    FormulaCountsDays(n);
    if c.month == 12 && c.day == 31 {
      YearIsItsMonths(c.year);
    }
  }

  // ---- the way back ----

  /** The century: n counts from 1 at number 0. */
  lemma CenturySplit(l0: int)
    requires l0 >= 68569
    ensures var n := 4 * l0 / 146097; var l1 := l0 - (146097 * n + 3) / 4;
            && n >= 1 && 0 <= l1 <= 36524 && (l1 == 36524 ==> n % 4 == 0)
            && l0 == 36525 * n - 3 * n / 4 + l1
  {
    var n := 4 * l0 / 146097;
    var k := n % 4;
    assert n == 4 * (n / 4) + k;
    assert (146097 * n + 3) / 4 == 36525 * n - 3 * n / 4;
  }

  /** The year within the century, for every day of it. */
  lemma YearSplit(l1: int)
    requires 0 <= l1 <= 36524
    ensures var i := 4000 * (l1 + 1) / 1461001;
            && 0 <= i <= 99 && 1461 * i / 4 <= l1 < 1461 * (i + 1) / 4
  {
    var i := 4000 * (l1 + 1) / 1461001;
    assert 1461001 * i <= 4000 * (l1 + 1) < 1461001 * (i + 1);
    assert 0 <= i <= 99;
  }

  lemma YearSpan(i: int)
    requires 0 <= i
    ensures 1461 * (i + 1) / 4 - 1461 * i / 4 == if i % 4 == 3 then 366 else 365
  {
    assert 1461 * i / 4 == 365 * i + i / 4;
    assert 1461 * (i + 1) / 4 == 365 * (i + 1) + (i + 1) / 4;
  }

  /** The month within the year, counted from March, and the day in it. */
  lemma MonthSplit(l2: int)
    requires 31 <= l2 <= 396
    ensures var j := 80 * l2 / 2447; var d := l2 - 2447 * j / 80;
            && 1 <= j <= 12 && 2447 * j / 80 == MonthOffset(j) && 1 <= d <= 31
            && (j in {2, 4, 7, 9} ==> d <= 30) && (j == 12 ==> d <= 29) && (j == 12 && d == 29 ==> l2 == 396)
  {
    var j := 80 * l2 / 2447;
    assert 2447 * j <= 80 * l2 < 2447 * (j + 1);
    assert 1 <= j <= 12;
    MonthOffsets(j);
  }

  lemma MonthOffsets(j: int)
    requires 1 <= j <= 12
    ensures 2447 * j / 80 == MonthOffset(j) == [30, 61, 91, 122, 152, 183, 214, 244, 275, 305, 336, 367][j - 1]
  {
  }

  /** What the local variables are, once all the divisions are of positive numbers. */
  lemma LocalsSplit(jd: int)
    requires jd >= 0
    ensures var v := JulLocals(jd);
            && v.n >= 1 && 0 <= v.l1 <= 36524 && (v.l1 == 36524 ==> v.n % 4 == 0)
            && jd == 36525 * v.n - 3 * v.n / 4 + v.l1 - 68569
            && 0 <= v.i <= 99 && 31 <= v.l2 <= 396 && v.l2 == v.l1 - 1461 * v.i / 4 + 31
            && v.l1 < 1461 * (v.i + 1) / 4
            && v.j == 80 * v.l2 / 2447 && v.d == v.l2 - 2447 * v.j / 80
            && v.l3 == v.j / 11 && v.m == v.j + 2 - 12 * v.l3 && v.y == 100 * (v.n - 49) + v.i + v.l3
  {
    var v := JulLocals(jd);
    CenturySplit(v.l0);
    YearSplit(v.l1);
    YearSpan(v.i);
  }

  /** The sum of the parts, in the formula. */
  lemma PartsAddUp(n: int, i: int)
    requires n >= 1 && 0 <= i <= 99
    ensures YearDays(100 * (n - 1) + i) == 36525 * (n - 1) + 1461 * i / 4 - 3 * n / 4
  {
    var y := 100 * (n - 1) + i;
    assert y / 100 == n - 1;
    assert y / 4 == 25 * (n - 1) + i / 4;
    assert 1461 * i / 4 == 365 * i + i / 4;
  }

  lemma CenturyIsLeap(y: int, m: int)
    requires y == 400 * m
    ensures LeapYear(y)
  {
    hide LeapYear;
    LeapEuclid(y);
  }

  lemma MultipleOfFour(y: int, m: int)
    requires y == 4 * m
    ensures y % 4 == 0
  {
  }

  lemma WithinCentury(y: int, q: int, r: int)
    requires y == 100 * q + r && 0 <= r < 100
    ensures y % 100 == r
  {
  }

  lemma OtherIsLeap(y: int, q: int, k: int)
    requires y == 100 * q + 4 * k && 0 < k < 25
    ensures LeapYear(y)
  {
    hide LeapYear;
    MultipleOfFour(y, 25 * q + k);
    WithinCentury(y, q, 4 * k);
    LeapEuclid(y);
  }

  lemma LeapDayInLeapYear(n: int, i: int)
    requires n >= 1 && 0 <= i <= 99 && i % 4 == 3 && (i == 99 ==> n % 4 == 0)
    ensures LeapYear(100 * (n - 49) + i + 1)
  {
    hide LeapYear;
    var y, k := 100 * (n - 49) + i + 1, i / 4 + 1;
    assert i + 1 == 4 * k;
    if i < 99 {
      OtherIsLeap(y, n - 49, k);
    } else {
      var m := n / 4;
      assert n == 4 * m;
      CenturyIsLeap(y, m - 12);
    }
  }

  lemma LastDayOfMarchYear(n: int, i: int, l1: int)
    requires n >= 1 && 0 <= i <= 99 && (l1 == 36524 ==> n % 4 == 0)
    requires l1 == 1461 * i / 4 + 365 && l1 < 1461 * (i + 1) / 4
    ensures LeapYear(100 * (n - 49) + i + 1)
  {
    hide LeapYear;
    YearSpan(i);
    LeapDayInLeapYear(n, i);
  }

  lemma BackYear(jd: int)
    requires jd >= 0
    ensures JulToGreg(jd).year >= FIRST_YEAR
  {
    hide JulLocals;
    var v := JulLocals(jd);
    LocalsSplit(jd);
    MonthSplit(v.l2);
    assert v.n == 1 ==> v.l1 >= 32044;
    assert v.l3 >= 0;
  }

  /** The day exists in its month. */
  lemma DayExists(y: int, j: int, d: int)
    requires 1 <= j <= 12 && 1 <= d <= 31
    requires (j in {2, 4, 7, 9} ==> d <= 30) && (j == 12 ==> d <= 29) && (j == 12 && d == 29 ==> LeapYear(y))
    ensures IsValid(Civil(y, j + 2 - 12 * (j / 11), d))
  {
    hide LeapYear;
  }

  /** Every number belongs to a valid date, and the formula leads back to the number. */
  lemma BackIsValid(jd: int)
    requires jd >= 0
    ensures IsValid(JulToGreg(jd)) && JulToGreg(jd).year >= FIRST_YEAR
  {
    hide LeapYear, JulLocals, IsValid, MonthOffset;
    var v := JulLocals(jd);
    LocalsSplit(jd);
    MonthSplit(v.l2);
    BackYear(jd);
    if v.j == 12 && v.d == 29 {
      LastDayOfMarchYear(v.n, v.i, v.l1);
    }
    DayExists(v.y, v.j, v.d);
  }

  lemma BackAndForth(jd: int)
    requires jd >= 0
    ensures Formula(JulToGreg(jd)) == jd
  {
    hide LeapYear, JulLocals, Formula, YearDays, MonthOffset;
    var v := JulLocals(jd);
    var c := JulToGreg(jd);
    LocalsSplit(jd);
    MonthSplit(v.l2);
    PartsAddUp(v.n, v.i);
    BackIsValid(jd);
    FormulaByMarch(c);
    assert MarchYear(c) == 100 * (v.n - 1) + v.i && MarchMonth(c) == v.j;
  }

  lemma EarlierIsNegative(c: Civil)
    requires IsValid(c) && c.year < FIRST_YEAR
    ensures Formula(c) < 0
  {
  }

  lemma LaterIsLarger(c: Civil)
    requires IsValid(c) && c.year > 1465002
    ensures Formula(c) > MAX_JULIAN
  {
    hide Formula, MonthOffset;
    FormulaByMarch(c);
    MonthOffsets(MarchMonth(c));
    var y := MarchYear(c);
    assert YearDays(y) >= 365 * y + y / 5;
  }

  /**
   The two conversions are inverse to each other between the valid dates and the numbers
   0 .. 536802342, and on these no signed 32 bit intermediate overflows.
   */
  lemma NumbersThereAndBack(jd: int)
    requires 0 <= jd <= MAX_JULIAN
    ensures IsValid(JulToGreg(jd)) && GregToJul(JulToGreg(jd)) == Some(jd)
    ensures JulFits(jd)
  {
    hide Formula, IsValid, JulLocals;
    BackIsValid(jd);
    BackAndForth(jd);
    LocalsFit(jd);
  }

  lemma DatesThereAndBack(c: Civil)
    requires IsValid(c) && 0 <= Formula(c) <= MAX_JULIAN
    ensures GregToJul(c) == Some(Formula(c)) && JulToGreg(Formula(c)) == c
    ensures GregFits(c)
  {
    hide Formula, IsValid, JulLocals, JulToGreg, GregFits;
    var jd := Formula(c);
    if c.year < FIRST_YEAR {
      EarlierIsNegative(c);
    }
    BackIsValid(jd);
    BackAndForth(jd);
    OrderAgrees(c, JulToGreg(jd));
    FormulaFits(c);
  }

  lemma LocalsFit(jd: int)
    requires 0 <= jd <= MAX_JULIAN
    ensures JulFits(jd)
  {
    hide JulLocals;
    var v := JulLocals(jd);
    LocalsSplit(jd);
    MonthSplit(v.l2);
    LocalsStart(jd);
  }

  lemma LocalsStart(jd: int)
    requires jd >= 0
    ensures JulLocals(jd).l0 == jd + 68569 && JulLocals(jd).n == 4 * (jd + 68569) / 146097
  {
  }

  lemma FormulaFits(c: Civil)
    requires IsValid(c) && 0 <= Formula(c) <= MAX_JULIAN
    ensures GregFits(c)
  {
    if c.year > 1465002 {
      LaterIsLarger(c);
    }
    if c.year < FIRST_YEAR {
      EarlierIsNegative(c);
    }
    FormulaTerms(c);
  }

  lemma MonthTerms(c: Civil)
    requires IsValid(c)
    ensures 1 <= c.month <= 12 && 1 <= c.day <= 31 && Quot(c.month - 14, 12) == (if c.month <= 2 then -1 else 0)
  {
    hide LeapYear;
  }

  lemma FormulaTerms(c: Civil)
    requires IsValid(c) && FIRST_YEAR <= c.year <= 1465002
    ensures GregFits(c)
  {
    hide IsValid;
    MonthTerms(c);
  }

  /** The bound is the best one: the very next number overflows. */
  lemma BoundIsTight(jd: int)
    requires 0 <= jd && jd + 68569 <= INT_MAX
    ensures JulFits(jd) <==> jd <= MAX_JULIAN
  {
    if jd <= MAX_JULIAN {
      LocalsFit(jd);
    }
  }

  /** The first and the last date of the range. */
  lemma RangeEnds()
    ensures JulToGreg(0) == Civil(-4713, 11, 24)
    ensures JulToGreg(MAX_JULIAN) == Civil(1465002, 10, 17)
  {
    var first, last := Civil(-4713, 11, 24), Civil(1465002, 10, 17);
    FormulaAtEnds();
    hide Formula, JulToGreg, LeapYear;
    DatesThereAndBack(first);
    DatesThereAndBack(last);
  }

  lemma FormulaAtEnds()
    ensures Formula(Civil(-4713, 11, 24)) == 0
    ensures Formula(Civil(1465002, 10, 17)) == MAX_JULIAN
  {
  }
}
