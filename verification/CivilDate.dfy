/**
 * Civil dates from day numbers (crates/oak-app/src/manager.rs, `civil_from_days`), against
 * the Gregorian calendar of section 3.2.1 of ISO 8601:2004.
 */
module CivilDate {

  datatype Date = Date(year: int, month: int, day: int)

  // ----- the calendar -----

  predicate IsLeap(year: int) {
    year % 4 == 0 && (year % 100 != 0 || year % 400 == 0)
  }

  function DaysInYear(year: int): int {
    if IsLeap(year) then 366 else 365
  }

  function DaysInMonth(year: int, month: int): int {
    if month == 2 then (if IsLeap(year) then 29 else 28)
    else if month == 4 || month == 6 || month == 9 || month == 11 then 30
    else 31
  }

  predicate Valid(d: Date) {
    1 <= d.month <= 12 && 1 <= d.day <= DaysInMonth(d.year, d.month)
  }

  /** The calendar day after `d`. */
  function Next(d: Date): Date {
    if d.day < DaysInMonth(d.year, d.month) then d.(day := d.day + 1)
    else if d.month < 12 then Date(d.year, d.month + 1, 1)
    else Date(d.year + 1, 1, 1)
  }

  /** Days from 1970-01-01 to the first day of a year, year by year. */
  function DaysBeforeYear(year: int): int
    decreases if year < 1970 then 1970 - year else year - 1970
  {
    if year == 1970 then 0
    else if year > 1970 then DaysBeforeYear(year - 1) + DaysInYear(year - 1)
    else DaysBeforeYear(year + 1) - DaysInYear(year)
  }

  /** Days of a year before one of its months, month by month. */
  function DaysBeforeMonth(year: int, month: int): int
    decreases month
  {
    if month <= 1 then 0 else DaysBeforeMonth(year, month - 1) + DaysInMonth(year, month - 1)
  }

  /** Days from 1970-01-01 to a date, counted by the rules above. */
  function DayNumber(d: Date): int {
    DaysBeforeYear(d.year) + DaysBeforeMonth(d.year, d.month) + d.day - 1
  }

  // ----- the closed form -----

  function YearOfEra(doe: int): int {
    (doe - doe / 1460 + doe / 36524 - doe / 146096) / 365
  }

  /** The source's algorithm: eras of 400 years, years that start in March. */
  function CivilFromDays(days: int): Date {
    var z := days + 719468;
    var era := z / 146097;
    var doe := z % 146097;
    var yoe := YearOfEra(doe);
    var year := yoe + era * 400;
    var doy := doe - (365 * yoe + yoe / 4 - yoe / 100);
    var mp := (5 * doy + 2) / 153;
    var day := doy - (153 * mp + 2) / 5 + 1;
    var month := if mp < 10 then mp + 3 else mp - 9;
    Date(if month <= 2 then year + 1 else year, month, day)
  }

  // ----- years of an era -----

  /** First day, within an era, of the March-based year `y`. */
  function YearStart(y: int): int {
    365 * y + y / 4 - y / 100 + y / 400
  }

  lemma NextQuotient(y: int)
    ensures (y + 1) / 4 == y / 4 + if (y + 1) % 4 == 0 then 1 else 0
    ensures (y + 1) / 100 == y / 100 + if (y + 1) % 100 == 0 then 1 else 0
    ensures (y + 1) / 400 == y / 400 + if (y + 1) % 400 == 0 then 1 else 0
  {
  }

  lemma YearStartStep(y: int)
    ensures YearStart(y + 1) == YearStart(y) + DaysInYear(y + 1)
  {
    NextQuotient(y);
    var n := y + 1;
    assert n % 400 == 0 ==> n % 100 == 0;
    assert n % 100 == 0 ==> n % 4 == 0;
  }

  /** The source's correction terms, for a day written as centuries, 4-year spans, years and days. */
  lemma EraTerms(c: int, q: int, r: int, doy: int, doe: int)
    requires 0 <= c <= 3 && 0 <= q <= 24 && 0 <= r <= 3
    requires 0 <= doy < DaysInYear(100 * c + 4 * q + r + 1)
    requires doe == 36524 * c + 1461 * q + 365 * r + doy
    ensures doe / 36524 - doe / 146096 == c
    ensures doe / 1460 == 25 * c + q + if 24 * c + q + 365 * r + doy < 1460 then 0 else 1
  {
    DaysOfCentury(c, q, r, doy);
    CenturyTerm(c, 1461 * q + 365 * r + doy, doe);
    SpanTerm(25 * c + q, 24 * c + q + 365 * r + doy, doe);
  }

  /** A century has 36524 days, and the last one of an era one more. */
  lemma DaysOfCentury(c: int, q: int, r: int, doy: int)
    requires 0 <= c <= 3 && 0 <= q <= 24 && 0 <= r <= 3 && 0 <= doy < DaysInYear(100 * c + 4 * q + r + 1)
    ensures 0 <= 1461 * q + 365 * r + doy <= 36524 && (1461 * q + 365 * r + doy == 36524 ==> c == 3)
    ensures 0 <= 24 * c + q + 365 * r + doy < 2920
  {
    var y := 100 * c + 4 * q + r + 1;
    assert doy == 365 ==> r == 3;
    assert doy == 365 && q == 24 ==> y == 100 * (c + 1) && y % 100 == 0 && c == 3;
  }

  lemma CenturyTerm(c: int, rest: int, doe: int)
    requires 0 <= c <= 3 && 0 <= rest <= 36524 && (rest == 36524 ==> c == 3) && doe == 36524 * c + rest
    ensures doe / 36524 - doe / 146096 == c
  {
  }

  lemma SpanTerm(spans: int, rest: int, doe: int)
    requires 0 <= rest < 2920 && doe == 1460 * spans + rest
    ensures doe / 1460 == spans + if rest < 1460 then 0 else 1
  {
  }

  lemma YearOfEraAt(c: int, q: int, r: int, doy: int)
    requires 0 <= c <= 3 && 0 <= q <= 24 && 0 <= r <= 3
    requires 0 <= doy < DaysInYear(100 * c + 4 * q + r + 1)
    ensures YearOfEra(36524 * c + 1461 * q + 365 * r + doy) == 100 * c + 4 * q + r
  {
    var doe := 36524 * c + 1461 * q + 365 * r + doy;
    EraTerms(c, q, r, doy, doe);
    var k := if 24 * c + q + 365 * r + doy < 1460 then 0 else 1;
    assert doe - doe / 1460 + (doe / 36524 - doe / 146096) == 365 * (100 * c + 4 * q + r) + (doy - k);
    assert (100 * c + 4 * q + r + 1) % 4 == 0 ==> r == 3;
    assert 0 <= doy - k < 365;
  }

  /** Every March-based year of an era consists of centuries, 4-year spans and years. */
  lemma YearOfEraIs(y: int, doy: int)
    requires 0 <= y < 400 && 0 <= doy < DaysInYear(y + 1)
    ensures YearOfEra(YearStart(y) + doy) == y
  {
    var c, q, r := y / 100, y % 100 / 4, y % 4;
    assert y == 100 * c + 4 * q + r;
    assert y / 4 == 25 * c + q;
    YearOfEraAt(c, q, r, doy);
  }

  /** Which March-based year a day of an era falls in, by search. */
  lemma {:induction false} FindYear(doe: int, y: int) returns (found: int)
    requires 0 <= y < 400 && YearStart(y) <= doe < 146097
    ensures 0 <= found < 400 && YearStart(found) <= doe < YearStart(found) + DaysInYear(found + 1)
    decreases 400 - y
  {
    YearStartStep(y);
    assert YearStart(400) == 146097;
    if doe < YearStart(y + 1) {
      found := y;
    } else {
      found := FindYear(doe, y + 1);
    }
  }

  /** The year the closed form picks, and the day within it. */
  lemma YearOfEraBrackets(doe: int)
    requires 0 <= doe < 146097
    ensures 0 <= YearOfEra(doe) < 400
    ensures YearStart(YearOfEra(doe)) <= doe < YearStart(YearOfEra(doe)) + DaysInYear(YearOfEra(doe) + 1)
  {
    var y := FindYear(doe, 0);
    YearOfEraIs(y, doe - YearStart(y));
  }

  // ----- months of a March-based year -----

  function MonthStart(mp: int): int {
    (153 * mp + 2) / 5
  }

  /** The month formula: months 0 to 10 have their calendar lengths, month 11 (February) what is left. */
  lemma MonthOfYear(doy: int, mp: int, year: int, month: int)
    requires 0 <= doy < DaysInYear(year + 1) && mp == (5 * doy + 2) / 153
    requires month == if mp < 10 then mp + 3 else mp - 9
    ensures 0 <= mp <= 11 && MonthStart(mp) <= doy < MonthStart(mp + 1)
    ensures mp < 11 ==> MonthStart(mp + 1) - MonthStart(mp) == DaysInMonth(year, month) == DaysInMonth(year + 1, month)
    ensures mp == 11 ==> DaysInYear(year + 1) - MonthStart(mp) == DaysInMonth(year + 1, month)
  {
    if mp < 6 {
      if mp < 3 {} else {}
    } else {
      if mp < 9 {} else {}
    }
  }

  lemma MonthUnique(doy: int, mp: int)
    requires 0 <= mp <= 11 && MonthStart(mp) <= doy < MonthStart(mp + 1)
    ensures (5 * doy + 2) / 153 == mp
  {
  }

  // ----- the closed form, day by day -----

  /** The parts of the closed form: era, year of the era, day of the year, month from March, day of the month. */
  datatype Parts = Parts(era: int, yoe: int, doy: int)

  predicate ValidParts(p: Parts) {
    0 <= p.yoe < 400 && 0 <= p.doy < DaysInYear(p.yoe + 1)
  }

  function PartsOf(days: int): Parts {
    var doe := (days + 719468) % 146097;
    Parts((days + 719468) / 146097, YearOfEra(doe), doe - YearStart(YearOfEra(doe)))
  }

  function DateOf(p: Parts): Date {
    var mp := (5 * p.doy + 2) / 153;
    var month := if mp < 10 then mp + 3 else mp - 9;
    Date(if month <= 2 then p.yoe + p.era * 400 + 1 else p.yoe + p.era * 400, month, p.doy - MonthStart(mp) + 1)
  }

  lemma ClosedForm(days: int)
    ensures ValidParts(PartsOf(days))
    ensures CivilFromDays(days) == DateOf(PartsOf(days))
  {
    var doe := (days + 719468) % 146097;
    YearOfEraBrackets(doe);
    WithinEra(YearOfEra(doe));
  }

  /** Within an era the 400-year term of `YearStart` is nothing. */
  lemma WithinEra(yoe: int)
    requires 0 <= yoe < 400
    ensures YearStart(yoe) == 365 * yoe + yoe / 4 - yoe / 100
  {
    assert yoe / 400 == 0;
  }

  lemma LeapInEra(era: int, y: int)
    ensures IsLeap(era * 400 + y) <==> IsLeap(y)
  {
    FoursAway(era * 100, y);
    HundredsAway(era * 4, y);
    FourHundredsAway(era, y);
  }

  lemma FoursAway(k: int, y: int)
    ensures (k * 4 + y) % 4 == y % 4
  {
  }

  lemma HundredsAway(k: int, y: int)
    ensures (k * 100 + y) % 100 == y % 100
  {
  }

  lemma FourHundredsAway(k: int, y: int)
    ensures (k * 400 + y) % 400 == y % 400
  {
  }

  lemma DateOfPartsIsValid(p: Parts)
    requires ValidParts(p)
    ensures Valid(DateOf(p))
  {
    var mp := (5 * p.doy + 2) / 153;
    var month := if mp < 10 then mp + 3 else mp - 9;
    MonthOfYear(p.doy, mp, p.yoe, month);
    LeapInEra(p.era, p.yoe);
    LeapInEra(p.era, p.yoe + 1);
  }

  function NextParts(p: Parts): Parts {
    if p.doy + 1 < DaysInYear(p.yoe + 1) then p.(doy := p.doy + 1)
    else if p.yoe < 399 then Parts(p.era, p.yoe + 1, 0)
    else Parts(p.era + 1, 0, 0)
  }

  /** The parts of a day, from its era and its day within the era. */
  lemma PartsAt(days: int, era: int, doe: int, yoe: int, doy: int)
    requires 0 <= doe < 146097 && 0 <= yoe < 400 && 0 <= doy < DaysInYear(yoe + 1)
    requires doe == YearStart(yoe) + doy && days + 719468 == 146097 * era + doe
    ensures PartsOf(days) == Parts(era, yoe, doy)
  {
    YearOfEraIs(yoe, doy);
    assert (days + 719468) / 146097 == era && (days + 719468) % 146097 == doe;
  }

  lemma YearStartEnds()
    ensures YearStart(0) == 0 && YearStart(400) == 146097 && YearStart(399) == 145731
  {
  }

  lemma PartsStep(days: int)
    ensures PartsOf(days + 1) == NextParts(PartsOf(days))
  {
    var era, doe := (days + 719468) / 146097, (days + 719468) % 146097;
    YearOfEraBrackets(doe);
    var n := NextParts(Parts(era, YearOfEra(doe), doe - YearStart(YearOfEra(doe))));
    StepWithinEra(era, doe, YearOfEra(doe), doe - YearStart(YearOfEra(doe)), n);
    PartsAt(days + 1, n.era, YearStart(n.yoe) + n.doy, n.yoe, n.doy);
  }

  /** The next day's parts stand for the next day of the era, or for the first of the next. */
  lemma StepWithinEra(era: int, doe: int, yoe: int, doy: int, n: Parts)
    requires 0 <= doe < 146097 && 0 <= yoe < 400 && 0 <= doy < DaysInYear(yoe + 1)
    requires doe == YearStart(yoe) + doy && n == NextParts(Parts(era, yoe, doy))
    ensures ValidParts(n) && 0 <= YearStart(n.yoe) + n.doy < 146097
    ensures 146097 * n.era + YearStart(n.yoe) + n.doy == 146097 * era + doe + 1
  {
    YearStartEnds();
    if doe == 146096 { LastYear(yoe, doe); }
    if doy + 1 == DaysInYear(yoe + 1) { YearStartStep(yoe); }
  }

  lemma {:induction false} YearAscends(a: int, b: int)
    requires a <= b
    ensures YearStart(a) + (b - a) * 365 <= YearStart(b)
    decreases b - a
  {
    if a < b {
      YearStartStep(a);
      YearAscends(a + 1, b);
      assert (b - a) * 365 == (b - (a + 1)) * 365 + 365;
    }
  }

  lemma LastYear(yoe: int, doe: int)
    requires 0 <= yoe < 400 && doe == 146096 && YearStart(yoe) <= doe < YearStart(yoe) + DaysInYear(yoe + 1)
    ensures yoe == 399 && doe == YearStart(399) + DaysInYear(400) - 1
  {
    assert YearStart(399) == 145731;
    if yoe < 399 {
      YearStartStep(yoe);
      YearAscends(yoe + 1, 399);
    }
  }

  /** The length of the month a day of the year falls in, by the calendar of its civil year. */
  lemma MonthLength(p: Parts, mp: int, d: Date)
    requires ValidParts(p) && mp == (5 * p.doy + 2) / 153 && d == DateOf(p)
    ensures 0 <= mp <= 11 && MonthStart(mp) <= p.doy < MonthStart(mp + 1)
    ensures DaysInMonth(d.year, d.month) ==
      if mp < 11 then MonthStart(mp + 1) - MonthStart(mp) else DaysInYear(p.yoe + 1) - MonthStart(mp)
  {
    MonthOfYear(p.doy, mp, p.yoe, d.month);
    LeapInEra(p.era, p.yoe);
    LeapInEra(p.era, p.yoe + 1);
  }

  /** The next day of the same March-based year. */
  lemma SameYearStep(p: Parts, mp: int, d: Date)
    requires ValidParts(p) && p.doy + 1 < DaysInYear(p.yoe + 1) && mp == (5 * p.doy + 2) / 153 && d == DateOf(p)
    ensures DateOf(p.(doy := p.doy + 1)) == Next(d)
  {
    MonthLength(p, mp, d);
    if p.doy + 1 < MonthStart(mp + 1) {
      MonthUnique(p.doy + 1, mp);
    } else {
      MonthUnique(p.doy + 1, mp + 1);
      NextMonthDate(p, mp, d);
    }
  }

  lemma NextMonthDate(p: Parts, mp: int, d: Date)
    requires ValidParts(p) && 0 <= mp < 11 && p.doy + 1 == MonthStart(mp + 1) && d == DateOf(p)
    requires mp == (5 * p.doy + 2) / 153 && mp + 1 == (5 * (p.doy + 1) + 2) / 153
    requires DaysInMonth(d.year, d.month) == MonthStart(mp + 1) - MonthStart(mp)
    ensures DateOf(p.(doy := p.doy + 1)) == Next(d)
  {
  }

  lemma DateStep(p: Parts)
    requires ValidParts(p)
    ensures DateOf(NextParts(p)) == Next(DateOf(p))
  {
    var mp := (5 * p.doy + 2) / 153;
    if p.doy + 1 < DaysInYear(p.yoe + 1) {
      SameYearStep(p, mp, DateOf(p));
    } else {
      MonthLength(p, mp, DateOf(p));
      YearEndsInFebruary(p, mp);
    }
  }

  lemma YearEndsInFebruary(p: Parts, mp: int)
    requires ValidParts(p) && p.doy + 1 == DaysInYear(p.yoe + 1) && mp == (5 * p.doy + 2) / 153
    ensures mp == 11
    ensures DateOf(NextParts(p)) == Date(p.yoe + p.era * 400 + 1, 3, 1)
  {
  }

  /** The closed form of a day and of the next day are calendar neighbours, on every day. */
  lemma CivilStep(days: int)
    ensures Valid(CivilFromDays(days))
    ensures CivilFromDays(days + 1) == Next(CivilFromDays(days))
  {
    ClosedForm(days);
    ClosedForm(days + 1);
    PartsStep(days);
    DateStep(PartsOf(days));
    DateOfPartsIsValid(PartsOf(days));
  }

  lemma CivilEpoch()
    ensures CivilFromDays(0) == Date(1970, 1, 1)
  {
    var z := 719468;
    assert z / 146097 == 4 && z % 146097 == 135080;
    assert YearOfEra(135080) == 369;
  }

  // ----- against day-by-day counting -----

  lemma YearIsItsMonths(year: int)
    ensures DaysBeforeMonth(year, 12) + 31 == DaysInYear(year)
  {
    assert DaysBeforeMonth(year, 4) == 59 + (if IsLeap(year) then 1 else 0) + 31;
    assert DaysBeforeMonth(year, 8) == DaysBeforeMonth(year, 4) + 122;
  }

  lemma NextMonthStarts(year: int, month: int)
    requires 1 <= month < 12
    ensures DaysBeforeMonth(year, month + 1) == DaysBeforeMonth(year, month) + DaysInMonth(year, month)
  {
  }

  lemma NextIsOneDayOn(d: Date)
    requires Valid(d)
    ensures DayNumber(Next(d)) == DayNumber(d) + 1
  {
    if d.day == DaysInMonth(d.year, d.month) {
      if d.month < 12 { NextMonthStarts(d.year, d.month); } else { YearIsItsMonths(d.year); }
    }
  }

  ghost predicate OneMore(f: int -> int, n: int) {
    f(n + 1) == f(n) + 1
  }

  /** What counts one more on every day, from zero on day zero, is the number of the day. */
  lemma {:induction false} CountsDays(f: int -> int, n: int)
    requires f(0) == 0 && forall m :: OneMore(f, m)
    ensures f(n) == n
    decreases if n < 0 then -n else n
  {
    if n > 0 {
      CountsDays(f, n - 1);
      assert OneMore(f, n - 1);
    } else if n < 0 {
      CountsDays(f, n + 1);
      assert OneMore(f, n);
    }
  }

  lemma CountStep(days: int)
    ensures DayNumber(CivilFromDays(days + 1)) == DayNumber(CivilFromDays(days)) + 1
  {
    CivilStep(days);
    NextIsOneDayOn(CivilFromDays(days));
  }

  function CivilCount(): int -> int {
    (n: int) => DayNumber(CivilFromDays(n))
  }

  lemma CivilCountStep(n: int)
    ensures OneMore(CivilCount(), n)
  {
    CountStep(n);
  }

  lemma CivilCountEpoch()
    ensures CivilCount()(0) == 0
  {
    CivilEpoch();
  }

  /** The closed form inverts the count of days, for every day before and after the epoch. */
  lemma CivilMatchesCount(days: int)
    ensures DayNumber(CivilFromDays(days)) == days
  {
    var f := CivilCount();
    CivilCountEpoch();
    forall n ensures OneMore(f, n) {
      CivilCountStep(n);
    }
    CountsDays(f, days);
    assert f(days) == days;
  }

  lemma {:induction false} YearsAscend(a: int, b: int)
    requires a <= b
    ensures DaysBeforeYear(a) <= DaysBeforeYear(b)
    decreases b - a
  {
    if a < b {
      assert DaysBeforeYear(b) == DaysBeforeYear(b - 1) + DaysInYear(b - 1);
      YearsAscend(a, b - 1);
    }
  }

  lemma {:induction false} MonthsAscend(year: int, a: int, b: int)
    requires 1 <= a <= b
    ensures DaysBeforeMonth(year, a) + 28 * (b - a) <= DaysBeforeMonth(year, b)
    decreases b - a
  {
    if a < b { MonthsAscend(year, a, b - 1); }
  }

  lemma DayOfYearBounds(d: Date)
    requires Valid(d)
    ensures 0 <= DayNumber(d) - DaysBeforeYear(d.year) < DaysInYear(d.year)
  {
    MonthsAscend(d.year, 1, d.month);
    if d.month < 12 {
      MonthsAscend(d.year, d.month + 1, 12);
      assert DaysBeforeMonth(d.year, d.month + 1) == DaysBeforeMonth(d.year, d.month) + DaysInMonth(d.year, d.month);
    }
    YearIsItsMonths(d.year);
  }

  lemma EarlierYear(a: Date, b: Date)
    requires Valid(a) && Valid(b) && a.year < b.year
    ensures DayNumber(a) < DayNumber(b)
  {
    DayOfYearBounds(a);
    DayOfYearBounds(b);
    assert DaysBeforeYear(a.year + 1) == DaysBeforeYear(a.year) + DaysInYear(a.year);
    YearsAscend(a.year + 1, b.year);
  }

  lemma EarlierMonth(a: Date, b: Date)
    requires Valid(a) && Valid(b) && a.year == b.year && a.month < b.month
    ensures DayNumber(a) < DayNumber(b)
  {
    assert DaysBeforeMonth(a.year, a.month + 1) == DaysBeforeMonth(a.year, a.month) + DaysInMonth(a.year, a.month);
    MonthsAscend(a.year, a.month + 1, b.month);
  }

  /** No two dates have the same count. */
  lemma CountIsInjective(a: Date, b: Date)
    requires Valid(a) && Valid(b) && DayNumber(a) == DayNumber(b)
    ensures a == b
  {
    if a.year < b.year {
      EarlierYear(a, b);
    } else if b.year < a.year {
      EarlierYear(b, a);
    } else if a.month < b.month {
      EarlierMonth(a, b);
    } else if b.month < a.month {
      EarlierMonth(b, a);
    }
  }

  /** Counting the days of a valid date and converting back gives the date. */
  lemma CountThenCivil(d: Date)
    requires Valid(d)
    ensures CivilFromDays(DayNumber(d)) == d
  {
    CivilMatchesCount(DayNumber(d));
    CivilStep(DayNumber(d));
    CountIsInjective(CivilFromDays(DayNumber(d)), d);
  }
}
