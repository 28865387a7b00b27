/**
 Days since the Unix epoch to a proleptic Gregorian date, against a calendar that
 only counts: leap years, month lengths and the day after a date.
 */
module CivilDate {
  datatype Date = Date(year: int, month: int, day: int)

  const RANGE: int := 365_000_000
  const EPOCH: Date := Date(1970, 1, 1)

  // ---- The calendar ----------------------------------------------------------------------

  predicate IsLeap(y: int) { y % 4 == 0 && (y % 100 != 0 || y % 400 == 0) }

  function DaysInMonth(y: int, m: int): int
    requires 1 <= m <= 12
  {
    if m == 2 then if IsLeap(y) then 29 else 28 else if m == 4 || m == 6 || m == 9 || m == 11 then 30 else 31
  }

  predicate Valid(d: Date) { 1 <= d.month <= 12 && 1 <= d.day <= DaysInMonth(d.year, d.month) }

  function NextDay(d: Date): (r: Date)
    requires Valid(d)
    ensures Valid(r)
  {
    if d.day < DaysInMonth(d.year, d.month) then d.(day := d.day + 1)
    else if d.month < 12 then Date(d.year, d.month + 1, 1)
    else Date(d.year + 1, 1, 1)
  }

  function LeapsBefore(y: int): int { (y - 1) / 4 - (y - 1) / 100 + (y - 1) / 400 }

  function DaysBeforeYear(y: int): int { 365 * (y - 1970) + LeapsBefore(y) - LeapsBefore(1970) }

  function DaysBeforeMonth(y: int, m: int): int
    requires 1 <= m <= 12
  {
    if m == 1 then 0 else DaysBeforeMonth(y, m - 1) + DaysInMonth(y, m - 1)
  }

  /** Days from the epoch to this date. */
  function DayCount(d: Date): int
    requires Valid(d)
  {
    DaysBeforeYear(d.year) + DaysBeforeMonth(d.year, d.month) + d.day - 1
  }

  lemma FoursStep(y: int)
    ensures y / 4 == (y - 1) / 4 + if y % 4 == 0 then 1 else 0
  {
  }

  lemma CenturiesStep(y: int, q: int, r: int)
    requires y == 100 * q + r && 0 <= r < 100
    ensures y / 100 == (y - 1) / 100 + if y % 100 == 0 then 1 else 0
  {
    assert y / 100 == q && y % 100 == r;
    assert (y - 1) / 100 == if r == 0 then q - 1 else q;
  }

  lemma ErasStep(y: int, q: int, r: int)
    requires y == 400 * q + r && 0 <= r < 400
    ensures y / 400 == (y - 1) / 400 + if y % 400 == 0 then 1 else 0
  {
    assert y / 400 == q && y % 400 == r;
    assert (y - 1) / 400 == if r == 0 then q - 1 else q;
  }

  lemma Multiples(q: int)
    ensures (100 * q) % 4 == 0 && (400 * q) % 100 == 0
  {
    assert 100 * q == 4 * (25 * q) && 400 * q == 100 * (4 * q);
  }

  lemma LeapsStep(y: int)
    ensures LeapsBefore(y + 1) == LeapsBefore(y) + if IsLeap(y) then 1 else 0
  {
    FoursStep(y);
    CenturiesStep(y, y / 100, y % 100);
    ErasStep(y, y / 400, y % 400);
    Multiples(y / 100);
    Multiples(y / 400);
  }

  /** A year is as long as its months together. */
  lemma YearLength(y: int)
    ensures DaysBeforeMonth(y, 12) + 31 == DaysBeforeYear(y + 1) - DaysBeforeYear(y)
  {
    LeapsStep(y);
    MonthStarts(y);
  }

  lemma MonthStarts(y: int)
    ensures var l := if IsLeap(y) then 1 else 0;
            && DaysBeforeMonth(y, 1) == 0 && DaysBeforeMonth(y, 2) == 31 && DaysBeforeMonth(y, 3) == 59 + l
            && DaysBeforeMonth(y, 4) == 90 + l && DaysBeforeMonth(y, 5) == 120 + l && DaysBeforeMonth(y, 6) == 151 + l
            && DaysBeforeMonth(y, 7) == 181 + l && DaysBeforeMonth(y, 8) == 212 + l && DaysBeforeMonth(y, 9) == 243 + l
            && DaysBeforeMonth(y, 10) == 273 + l && DaysBeforeMonth(y, 11) == 304 + l
            && DaysBeforeMonth(y, 12) == 334 + l
  {
  }

  /** The count goes up by one from each date to the next. */
  lemma NextDayCounts(d: Date)
    requires Valid(d)
    ensures DayCount(NextDay(d)) == DayCount(d) + 1
  {
    if d.day == DaysInMonth(d.year, d.month) && d.month == 12 { YearLength(d.year); }
  }

  ghost predicate Before(a: Date, b: Date) {
    a.year < b.year || (a.year == b.year && (a.month < b.month || (a.month == b.month && a.day < b.day)))
  }

  lemma {:induction false} YearsGrow(y: int, z: int)
    requires y < z
    ensures DaysBeforeYear(y) + 365 <= DaysBeforeYear(z) && (IsLeap(y) ==> DaysBeforeYear(y) + 366 <= DaysBeforeYear(z))
    decreases z - y
  {
    LeapsStep(z - 1);
    if y < z - 1 { YearsGrow(y, z - 1); }
  }

  lemma {:induction false} MonthsGrow(y: int, m: int, n: int)
    requires 1 <= m < n <= 12
    ensures DaysBeforeMonth(y, m) + DaysInMonth(y, m) <= DaysBeforeMonth(y, n)
    decreases n - m
  {
    if m < n - 1 { MonthsGrow(y, m, n - 1); }
  }

  /** Earlier dates have smaller counts, so a count names one date. */
  lemma CountsOrder(a: Date, b: Date)
    requires Valid(a) && Valid(b) && Before(a, b)
    ensures DayCount(a) < DayCount(b)
  {
    if a.year < b.year {
      YearsGrow(a.year, b.year);
      MonthStarts(a.year);
      if a.month < 12 { MonthsGrow(a.year, a.month, 12); }
      MonthStarts(b.year);
      if 1 < b.month { MonthsGrow(b.year, 1, b.month); }
    } else if a.month < b.month {
      MonthsGrow(a.year, a.month, b.month);
    }
  }

  // ---- The conversion -----------------------------------------------------------------------

  /** Rust's division: the quotient is rounded toward zero. */
  function TruncDiv(a: int, b: int): int
    requires b > 0
  {
    if a >= 0 then a / b else -((-a) / b)
  }

  function YearOfEra(doe: int): int { (doe - doe / 1460 + doe / 36524 - doe / 146096) / 365 }

  /** The day of the era to a date, given the era's first year. */
  function FromEra(doe: int, first: int): Date { FromYear(doe, YearOfEra(doe), first) }

  function FromYear(doe: int, yoe: int, first: int): Date {
    MarchDate(yoe + first, doe - (365 * yoe + yoe / 4 - yoe / 100))
  }

  /** Days before the month that is `mp` months after March. */
  function MonthStart(mp: int): int { (153 * mp + 2) / 5 }

  /** A day of the March-based year `y` as a date. */
  function MarchDate(y: int, doy: int): Date {
    var mp := (5 * doy + 2) / 153;
    var m := if mp < 10 then mp + 3 else mp - 9;
    Date(if m <= 2 then y + 1 else y, m, doy - MonthStart(mp) + 1)
  }

  function Era(days: int): int {
    var z := days + 719468;
    TruncDiv(if z >= 0 then z else z - 146096, 146097)
  }

  function DaysToCivil(days: int): Date {
    if !(-RANGE <= days <= RANGE) then EPOCH
    else FromEra(days + 719468 - Era(days) * 146097, Era(days) * 400)
  }

  /** The copy that divides with a non-negative remainder. */
  function EuclideanCivil(days: int): Date {
    var z := days + 719468;
    FromEra(z % 146097, z / 146097 * 400)
  }

  /** The truncating division was bent to round down. */
  lemma EraFloors(days: int)
    ensures Era(days) == (days + 719468) / 146097
    ensures 0 <= days + 719468 - Era(days) * 146097 < 146097
  {
    var z := days + 719468;
    if z < 0 {
      var q, r := z / 146097, z % 146097;
      assert z == 146097 * q + r && 0 <= r < 146097;
      assert -(z - 146096) == 146097 * (-q) + (146096 - r);
    }
  }

  /** Days in the era before its year `y`. */
  function YearStart(y: int): int { 365 * y + y / 4 - y / 100 + y / 400 }

  /** A day as century, four-year block and rest. */
  lemma Blocks(doe: int) returns (c: int, f: int, g: int)
    requires 0 <= doe < 146096
    ensures 0 <= c <= 3 && 0 <= f <= 24 && 0 <= g <= 1460 && (f == 24 ==> g < 1460)
    ensures doe == 36524 * c + 1461 * f + g && c == doe / 36524
  {
    c := doe / 36524;
    var e := doe - 36524 * c;
    f := e / 1461;
    g := e - 1461 * f;
  }

  lemma BlockYear(doe: int, c: int, f: int, g: int)
    requires 0 <= c <= 3 && 0 <= f <= 24 && 0 <= g <= 1460 && doe < 146096
    requires doe == 36524 * c + 1461 * f + g && c == doe / 36524
    ensures YearOfEra(doe) == 100 * c + 4 * f + if g < 1095 then g / 365 else 3
  {
    var over := 24 * c + f + g;
    assert doe == 1460 * (25 * c + f) + over;
    assert doe / 1460 == 25 * c + f + over / 1460;
    var carry := over / 1460;
    assert doe - doe / 1460 + doe / 36524 - doe / 146096 == 365 * (100 * c + 4 * f) + (g - carry);
  }

  lemma StartOfYear(c: int, f: int, h: int)
    requires 0 <= c <= 3 && 0 <= f <= 24 && 0 <= h <= 3
    ensures YearStart(100 * c + 4 * f + h) == 36524 * c + 1461 * f + 365 * h
  {
    var y := 100 * c + 4 * f + h;
    assert y / 4 == 25 * c + f && y / 100 == c && y / 400 == 0;
  }

  lemma StartOfBlock(c: int, f: int)
    requires 0 <= c <= 3 && 1 <= f <= 25
    ensures YearStart(100 * c + 4 * f)
         == if f == 25 then 36524 * (c + 1) + (if c == 3 then 1 else 0) else 36524 * c + 1461 * f
  {
    if f == 25 {
      var y := 100 * (c + 1);
      assert y / 4 == 25 * (c + 1) && y / 100 == c + 1;
    } else {
      StartOfYear(c, f, 0);
    }
  }

  lemma YearOfEraExact(doe: int)
    requires 0 <= doe < 146097
    ensures 0 <= YearOfEra(doe) <= 399
    ensures YearStart(YearOfEra(doe)) <= doe < YearStart(YearOfEra(doe) + 1)
  {
    if doe < 146096 {
      var c, f, g := Blocks(doe);
      BlockYear(doe, c, f, g);
      YearInBlock(c, f, g, if g < 1095 then g / 365 else 3);
    }
  }

  /** Day `g` of a four-year block lies in its year `h`. */
  lemma YearInBlock(c: int, f: int, g: int, h: int)
    requires 0 <= c <= 3 && 0 <= f <= 24 && 0 <= g <= 1460 && (f == 24 ==> g < 1460)
    requires h == if g < 1095 then g / 365 else 3
    ensures 0 <= h <= 3
    ensures var y := 100 * c + 4 * f + h; YearStart(y) <= 36524 * c + 1461 * f + g < YearStart(y + 1)
  {
    StartOfYear(c, f, h);
    if h < 3 { StartOfYear(c, f, h + 1); } else { StartOfBlock(c, f + 1); }
  }

  lemma MonthOfYear(doy: int)
    requires 0 <= doy <= 365
    ensures var mp := (5 * doy + 2) / 153;
            0 <= mp <= 11 && MonthStart(mp) <= doy && (mp < 11 ==> doy < MonthStart(mp + 1))
  {
  }

  /** The first of March of year `y`, counted in eras. */
  lemma MarchFirst(y: int)
    ensures DaysBeforeYear(y) + DaysBeforeMonth(y, 3) == YearStart(y) - 719468
  {
    LeapsStep(y);
    MonthStarts(y);
  }

  lemma EraYears(yoe: int, era: int)
    requires 0 <= yoe <= 400
    ensures YearStart(yoe + era * 400) == YearStart(yoe) + era * 146097
  {
    var y := yoe + era * 400;
    assert y / 4 == yoe / 4 + 100 * era && y / 100 == yoe / 100 + 4 * era && y / 400 == yoe / 400 + era;
  }

  lemma MarchDateValid(y: int, doy: int)
    requires 0 <= doy < YearStart(y + 1) - YearStart(y)
    ensures Valid(MarchDate(y, doy)) && DayCount(MarchDate(y, doy)) == YearStart(y) - 719468 + doy
  {
    LeapsStep(y + 1);
    assert YearStart(y + 1) - YearStart(y) == if IsLeap(y + 1) then 366 else 365;
    MonthOfYear(doy);
    MonthStarts(y);
    MonthStarts(y + 1);
    MarchFirst(y);
    LeapsStep(y);
  }

  lemma EraDayCounts(yoe: int, doe: int, era: int)
    requires 0 <= yoe <= 399 && YearStart(yoe) <= doe < YearStart(yoe + 1)
    ensures var d := MarchDate(yoe + era * 400, doe - YearStart(yoe));
            Valid(d) && DayCount(d) == doe + era * 146097 - 719468
  {
    EraYears(yoe, era);
    EraYears(yoe + 1, era);
    YearDayCounts(yoe + era * 400, YearStart(yoe), YearStart(yoe + 1), era * 146097, doe);
  }

  /** Year `y` runs from `start + base` to `end + base`. */
  lemma YearDayCounts(y: int, start: int, end: int, base: int, doe: int)
    requires YearStart(y) == start + base && YearStart(y + 1) == end + base && start <= doe < end
    ensures var d := MarchDate(y, doe - start); Valid(d) && DayCount(d) == doe + base - 719468
  {
    MarchDateValid(y, doe - start);
  }

  lemma YearCounts(doe: int, yoe: int, era: int)
    requires 0 <= yoe <= 399 && YearStart(yoe) <= doe < YearStart(yoe + 1)
    ensures var d := FromYear(doe, yoe, era * 400); Valid(d) && DayCount(d) == doe + era * 146097 - 719468
  {
    EraDayCounts(yoe, doe, era);
    assert 365 * yoe + yoe / 4 - yoe / 100 == YearStart(yoe);
  }

  lemma EraCounts(doe: int, era: int)
    requires 0 <= doe < 146097
    ensures var d := FromEra(doe, era * 400); Valid(d) && DayCount(d) == doe + era * 146097 - 719468
  {
    YearOfEraExact(doe);
    YearCounts(doe, YearOfEra(doe), era);
  }

  /** Within the range the result is a date, and the date whose count is the input. */
  lemma CivilCounts(days: int)
    requires -RANGE <= days <= RANGE
    ensures Valid(DaysToCivil(days)) && DayCount(DaysToCivil(days)) == days
  {
    EraFloors(days);
    EraCounts(days + 719468 - Era(days) * 146097, Era(days));
  }

  /** Counting days from a date and converting back gives the date. */
  lemma CivilInverts(d: Date)
    requires Valid(d) && -RANGE <= DayCount(d) <= RANGE
    ensures DaysToCivil(DayCount(d)) == d
  {
    var e := DaysToCivil(DayCount(d));
    CivilCounts(DayCount(d));
    if Before(d, e) { CountsOrder(d, e); }
    if Before(e, d) { CountsOrder(e, d); }
  }

  /** Successive days are successive dates. */
  lemma CivilSteps(days: int)
    requires -RANGE <= days < RANGE
    ensures Valid(DaysToCivil(days)) && DaysToCivil(days + 1) == NextDay(DaysToCivil(days))
  {
    CivilCounts(days);
    NextDayCounts(DaysToCivil(days));
    CivilInverts(NextDay(DaysToCivil(days)));
  }

  /** The copy with Euclidean division gives the same date on every day of the range. */
  lemma EuclideanAgrees(days: int)
    requires -RANGE <= days <= RANGE
    ensures EuclideanCivil(days) == DaysToCivil(days)
  {
    EraFloors(days);
    var z := days + 719468;
    var rest, first := z % 146097, z / 146097 * 400;
    assert rest == z - Era(days) * 146097 && first == Era(days) * 400;
    assert EuclideanCivil(days) == FromEra(rest, first);
  }

  const U32_MAX: int := 0xFFFF_FFFF
  const I32_MAX: int := 0x7FFF_FFFF

  lemma YearFits(doe: int, yoe: int, era: int)
    requires 0 <= yoe <= 399 && -3000 <= era <= 3000
    ensures -I32_MAX <= FromYear(doe, yoe, era * 400).year <= I32_MAX
  {
  }

  /** No unsigned step goes below zero or over 32 bits, and the year fits 32 bits signed. */
  lemma NoOverflow(days: int)
    requires -RANGE <= days <= RANGE
    ensures var doe := days + 719468 - Era(days) * 146097;
            && 0 <= doe - doe / 1460 && 0 <= doe - doe / 1460 + doe / 36524 - doe / 146096 <= doe <= U32_MAX
            && var yoe := YearOfEra(doe);
            && 0 <= 365 * yoe + yoe / 4 - yoe / 100 <= doe
            && var doy := doe - (365 * yoe + yoe / 4 - yoe / 100);
            5 * doy + 2 <= U32_MAX && (153 * ((5 * doy + 2) / 153) + 2) / 5 <= doy
    ensures -I32_MAX <= DaysToCivil(days).year <= I32_MAX
  {
    EraFloors(days);
    var doe := days + 719468 - Era(days) * 146097;
    YearOfEraExact(doe);
    StepsFit(doe, YearOfEra(doe));
    YearFits(doe, YearOfEra(doe), Era(days));
  }

  lemma StepsFit(doe: int, yoe: int)
    requires 0 <= doe < 146097 && 0 <= yoe <= 399 && YearStart(yoe) <= doe < YearStart(yoe + 1)
    ensures 0 <= doe - doe / 1460 && 0 <= doe - doe / 1460 + doe / 36524 - doe / 146096 <= doe
    ensures 0 <= 365 * yoe + yoe / 4 - yoe / 100 <= doe
    ensures var doy := doe - (365 * yoe + yoe / 4 - yoe / 100);
            doy <= 365 && (153 * ((5 * doy + 2) / 153) + 2) / 5 <= doy
  {
    assert 365 * yoe + yoe / 4 - yoe / 100 == YearStart(yoe);
    YearIsShort(yoe);
    MonthOfYear(doe - YearStart(yoe));
    NumeratorFits(doe);
  }

  lemma YearIsShort(yoe: int)
    requires 0 <= yoe <= 399
    ensures 0 <= YearStart(yoe) && YearStart(yoe + 1) <= YearStart(yoe) + 366
  {
    assert (yoe + 1) / 4 <= yoe / 4 + 1;
    assert (yoe + 1) / 100 >= yoe / 100;
    assert yoe / 100 <= yoe;
  }

  lemma NumeratorFits(doe: int)
    requires 0 <= doe < 146097
    ensures 0 <= doe - doe / 1460 && 0 <= doe - doe / 1460 + doe / 36524 - doe / 146096 <= doe
  {
  }
}
