/** Civil dates from day counts (engine/crates/server/src/time.rs). The algorithm works on
  years that begin in March, in eras of 400 years; it is proved to walk the Gregorian
  calendar of RFC 3339 day by day. */
module Calendar {

  datatype Date = Date(year: int, month: int, day: int)

  const I32_MAX := 0x7FFF_FFFF
  const I32_MIN := -0x8000_0000
  const DAYS_PER_ERA := 146097

  // ---- The calendar --------------------------------------------------------------

  /** Appendix C of RFC 3339. */
  predicate IsLeap(year: int) {
    year % 4 == 0 && (year % 100 != 0 || year % 400 == 0)
  }

  /** Section 5.7 of RFC 3339. */
  function DaysIn(year: int, month: int): int {
    if month == 2 then (if IsLeap(year) then 29 else 28)
    else if month in {4, 6, 9, 11} then 30
    else 31
  }

  predicate Valid(d: Date) {
    1 <= d.month <= 12 && 1 <= d.day <= DaysIn(d.year, d.month)
  }

  function Next(d: Date): Date {
    if d.day < DaysIn(d.year, d.month) then d.(day := d.day + 1)
    else if d.month < 12 then Date(d.year, d.month + 1, 1)
    else Date(d.year + 1, 1, 1)
  }

  predicate Earlier(a: Date, b: Date) {
    a.year < b.year || (a.year == b.year && (a.month < b.month || (a.month == b.month && a.day < b.day)))
  }

  // ---- The algorithm -------------------------------------------------------------

  /** Division that truncates toward zero. */
  function Truncated(a: int, b: int): int
    requires b > 0
  {
    if a >= 0 then a / b else -(-a / b)
  }

  function Era(shifted: int): int {
    Truncated(if shifted >= 0 then shifted else shifted - 146096, DAYS_PER_ERA)
  }

  function YearOfEra(dayOfEra: int): int {
    Truncated(dayOfEra - Truncated(dayOfEra, 1460) + Truncated(dayOfEra, 36524) - Truncated(dayOfEra, 146096), 365)
  }

  function DayOfYear(dayOfEra: int): int {
    var y := YearOfEra(dayOfEra);
    dayOfEra - (365 * y + Truncated(y, 4) - Truncated(y, 100))
  }

  function MonthPrime(dayOfYear: int): int {
    Truncated(5 * dayOfYear + 2, 153)
  }

  /** The result as the program computes it, before it narrows the year to 32 bits. */
  function Computed(days: int): Date {
    var shifted := days + 719468;
    var era := Era(shifted);
    var dayOfEra := shifted - era * DAYS_PER_ERA;
    var dayOfYear := DayOfYear(dayOfEra);
    var monthPrime := MonthPrime(dayOfYear);
    var day := dayOfYear - Truncated(153 * monthPrime + 2, 5) + 1;
    var month := monthPrime + if monthPrime < 10 then 3 else -9;
    Date(YearOfEra(dayOfEra) + era * 400 + (if month <= 2 then 1 else 0), month, day)
  }

  function Narrowed(value: int, low: int, high: int, otherwise: int): int {
    if low <= value <= high then value else otherwise
  }

  /** `civil_from_days`. */
  function CivilFromDays(days: int): Date {
    var d := Computed(days);
    Date(Narrowed(d.year, I32_MIN, I32_MAX, I32_MAX), Narrowed(d.month, 0, 0xFFFF_FFFF, 1), Narrowed(d.day, 0, 0xFFFF_FFFF, 1))
  }

  // ---- Years of an era -----------------------------------------------------------

  /** The day of the era on which a year begins, and the one on which the next begins. */
  function YearStart(y: int): int {
    365 * y + y / 4 - y / 100
  }

  function YearEnd(y: int): int {
    if y == 399 then DAYS_PER_ERA else YearStart(y + 1)
  }

  lemma EraFloors(shifted: int)
    ensures var era := Era(shifted); 0 <= shifted - era * DAYS_PER_ERA < DAYS_PER_ERA
  {
  }

  lemma EraIsUnique(shifted: int, era: int)
    requires 0 <= shifted - era * DAYS_PER_ERA < DAYS_PER_ERA
    ensures Era(shifted) == era
  {
    EraFloors(shifted);
  }

  /** A day of the era by century, four-year cycle, year of the cycle and day of the year. */
  datatype Place = Place(century: int, cycle: int, year: int, day: int)

  predicate Placed(p: Place) {
    && 0 <= p.century <= 3 && 0 <= p.cycle <= 24 && 0 <= p.year <= 3 && 0 <= p.day <= 365
    && (p.day == 365 ==> p.year == 3 && (p.cycle == 24 ==> p.century == 3))
  }

  function DayAt(p: Place): int {
    36524 * p.century + 1461 * p.cycle + 365 * p.year + p.day
  }

  function YearAt(p: Place): int {
    100 * p.century + 4 * p.cycle + p.year
  }

  lemma PlaceOf(dayOfEra: int) returns (p: Place)
    requires 0 <= dayOfEra < DAYS_PER_ERA
    ensures Placed(p) && DayAt(p) == dayOfEra
  {
    var c := if dayOfEra / 36524 <= 3 then dayOfEra / 36524 else 3;
    var r := dayOfEra - 36524 * c;
    var q := r / 1461;
    var s := r - 1461 * q;
    var t := if s / 365 <= 3 then s / 365 else 3;
    p := Place(c, q, t, s - 365 * t);
  }

  lemma PlaceInYear(p: Place)
    requires Placed(p)
    ensures 0 <= YearAt(p) <= 399 && YearStart(YearAt(p)) == DayAt(p) - p.day && DayAt(p) < YearEnd(YearAt(p))
  {
    var y := YearAt(p);
    assert y / 4 == 25 * p.century + p.cycle && y / 100 == p.century;
    if p.year == 3 {
      assert (y + 1) / 4 == 25 * p.century + p.cycle + 1;
      assert (y + 1) / 100 == p.century + (if p.cycle == 24 then 1 else 0);
    } else {
      assert (y + 1) / 4 == y / 4 && (y + 1) / 100 == p.century;
    }
  }

  /** Days are counted off in cycles of 1460: one more has gone by at the end of a late cycle. */
  lemma CyclesBefore(p: Place)
    requires Placed(p)
    ensures var over := 24 * p.century + p.cycle + 365 * p.year + p.day;
      DayAt(p) / 1460 == 25 * p.century + p.cycle + (if over < 1460 then 0 else 1)
  {
  }

  lemma CenturiesBefore(p: Place)
    requires Placed(p)
    ensures DayAt(p) / 36524 - DayAt(p) / 146096 == p.century
  {
    var inCentury := 1461 * p.cycle + 365 * p.year + p.day;
    assert inCentury < 36524 || (p == Place(3, 24, 3, 365) && inCentury == 36524);
  }

  lemma FormulaFindsYear(p: Place)
    requires Placed(p)
    ensures YearOfEra(DayAt(p)) == YearAt(p)
  {
    CyclesBefore(p);
    CenturiesBefore(p);
    var n := DayAt(p) - DayAt(p) / 1460 + DayAt(p) / 36524 - DayAt(p) / 146096;
    assert 365 * YearAt(p) <= n < 365 * YearAt(p) + 365;
  }

  /** The year the formula gives is the one that the day falls in. */
  lemma YearContains(dayOfEra: int)
    requires 0 <= dayOfEra < DAYS_PER_ERA
    ensures 0 <= YearOfEra(dayOfEra) <= 399
    ensures YearStart(YearOfEra(dayOfEra)) <= dayOfEra < YearEnd(YearOfEra(dayOfEra))
  {
    var p := PlaceOf(dayOfEra);
    FormulaFindsYear(p);
    PlaceInYear(p);
  }

  lemma YearIsUnique(dayOfEra: int, y: int)
    requires 0 <= dayOfEra < DAYS_PER_ERA && 0 <= y <= 399 && YearStart(y) <= dayOfEra < YearEnd(y)
    ensures YearOfEra(dayOfEra) == y
  {
    YearContains(dayOfEra);
  }

  // ---- Months of a year ----------------------------------------------------------

  /** The length of the year from one March to the next: the leap day comes at its end. */
  lemma YearLength(y: int)
    requires 0 <= y <= 399
    ensures YearEnd(y) - YearStart(y) == if IsLeap(y + 1) then 366 else 365
  {
  }

  lemma EraKeepsLeap(y: int, era: int)
    ensures IsLeap(y + 400 * era) == IsLeap(y)
  {
    Remainder(y, 4, 100 * era);
    Remainder(y, 100, 4 * era);
    Remainder(y, 400, era);
  }

  lemma Remainder(y: int, n: int, k: int)
    requires 0 < n
    ensures (y + n * k) % n == y % n
  {
    var q, r := y / n, y % n;
    var z := y + n * k;
    assert z == n * (q + k) + r by { assert n * (q + k) == n * q + n * k; }
    Quotients(z / n, q + k, z % n, r, n);
  }

  lemma Quotients(a: int, b: int, r: int, s: int, n: int)
    requires 0 <= r < n && 0 <= s < n && n * a + r == n * b + s
    ensures r == s
  {
    assert n * (a - b) == s - r by { assert n * (a - b) == n * a - n * b; }
    assert a - b >= 1 ==> n * (a - b) >= n;
    assert a - b <= -1 ==> n * (a - b) <= -n;
  }

  /** The day of the March-based year on which a month begins. */
  function MonthStart(m: int): int {
    (153 * m + 2) / 5
  }

  lemma MonthContains(dayOfYear: int)
    requires 0 <= dayOfYear <= 365
    ensures var m := MonthPrime(dayOfYear); 0 <= m <= 11 && MonthStart(m) <= dayOfYear < MonthStart(m + 1)
  {
  }

  function MonthOf(m: int): int {
    m + if m < 10 then 3 else -9
  }

  /** Months are as long as they should be, except that the last, February, is cut short by the
    end of the year. */
  lemma MonthLength(m: int, year: int)
    requires 0 <= m <= 11
    ensures m < 11 ==> MonthStart(m + 1) - MonthStart(m) == DaysIn(year, MonthOf(m))
    ensures m == 11 ==> MonthStart(11) == 337 && DaysIn(year, MonthOf(m)) == (if IsLeap(year) then 366 else 365) - 337
  {
  }

  /** A day by era, March-based year of the era, and day of that year. */
  datatype Count = Count(era: int, year: int, day: int)

  predicate Counted(c: Count) {
    0 <= c.year <= 399 && 0 <= c.day < YearEnd(c.year) - YearStart(c.year)
  }

  function DaysAt(c: Count): int {
    c.era * DAYS_PER_ERA + YearStart(c.year) + c.day - 719468
  }

  function DateAt(c: Count): Date {
    var m := MonthPrime(c.day);
    var month := MonthOf(m);
    Date(c.year + c.era * 400 + (if month <= 2 then 1 else 0), month, c.day - MonthStart(m) + 1)
  }

  lemma CountOf(days: int) returns (c: Count)
    ensures Counted(c) && DaysAt(c) == days
  {
    var shifted := days + 719468;
    EraFloors(shifted);
    var dayOfEra := shifted - Era(shifted) * DAYS_PER_ERA;
    YearContains(dayOfEra);
    c := Count(Era(shifted), YearOfEra(dayOfEra), dayOfEra - YearStart(YearOfEra(dayOfEra)));
    hide Era, YearOfEra, YearStart, YearEnd;
  }

  lemma YearEndsInEra(y: int)
    requires 0 <= y <= 399
    ensures 0 <= YearStart(y) <= YearEnd(y) <= DAYS_PER_ERA
  {
  }

  lemma ComputedParts(days: int, era: int, dayOfEra: int, y: int)
    requires days + 719468 == era * DAYS_PER_ERA + dayOfEra && Era(days + 719468) == era
    requires YearOfEra(dayOfEra) == y && 0 <= y
    ensures Computed(days) ==
      var dayOfYear := dayOfEra - YearStart(y);
      var m := MonthPrime(dayOfYear);
      Date(y + era * 400 + (if MonthOf(m) <= 2 then 1 else 0), MonthOf(m), dayOfYear - Truncated(153 * m + 2, 5) + 1)
  {
    hide Era, YearOfEra, MonthPrime;
  }

  lemma ComputedIsDateAt(c: Count)
    requires Counted(c)
    ensures Computed(DaysAt(c)) == DateAt(c)
  {
    hide Era, YearOfEra, YearEnd, YearStart, MonthPrime, DayOfYear, Computed, IsLeap;
    var dayOfEra := YearStart(c.year) + c.day;
    YearEndsInEra(c.year);
    EraIsUnique(DaysAt(c) + 719468, c.era);
    YearIsUnique(dayOfEra, c.year);
    YearLength(c.year);
    MonthContains(c.day);
    ComputedParts(DaysAt(c), c.era, dayOfEra, c.year);
  }

  /** The count of the next day. */
  function NextCount(c: Count): Count {
    if c.day + 1 < YearEnd(c.year) - YearStart(c.year) then c.(day := c.day + 1)
    else if c.year < 399 then Count(c.era, c.year + 1, 0)
    else Count(c.era + 1, 0, 0)
  }

  lemma NextCountIsNext(c: Count)
    requires Counted(c)
    ensures Counted(NextCount(c)) && DaysAt(NextCount(c)) == DaysAt(c) + 1
  {
    YearLength(c.year);
    if c.year < 399 { YearLength(c.year + 1); } else { YearLength(0); }
  }

  lemma MonthUnique(dayOfYear: int, m: int)
    requires 0 <= dayOfYear <= 365 && 0 <= m <= 11 && MonthStart(m) <= dayOfYear < MonthStart(m + 1)
    ensures MonthPrime(dayOfYear) == m
  {
  }

  /** Where a day stands in its month, and how long the month and the year are. */
  lemma InMonth(c: Count)
    requires Counted(c)
    ensures var m, year, left := MonthPrime(c.day), DateAt(c).year, YearEnd(c.year) - YearStart(c.year) - c.day;
      && 0 <= m <= 11 && MonthStart(m) <= c.day < MonthStart(m + 1) && 0 < left && 0 <= c.day <= 365
      && (m < 11 ==> DaysIn(year, MonthOf(m)) == MonthStart(m + 1) - MonthStart(m) && MonthStart(m + 1) - c.day < left)
      && (m == 11 ==> DaysIn(year, MonthOf(m)) == left + c.day - MonthStart(m))
      && DateAt(c) == Date(year, MonthOf(m), c.day - MonthStart(m) + 1)
      && year == c.year + c.era * 400 + (if m < 10 then 0 else 1)
  {
    var m := MonthPrime(c.day);
    YearLength(c.year);
    EraKeepsLeap(c.year + 1, c.era);
    MonthContains(c.day);
    MonthLength(m, DateAt(c).year);
    if m < 11 { MonthsWithin(m); }
    hide IsLeap, YearStart, YearEnd, MonthPrime;
  }

  lemma MonthsWithin(m: int)
    requires 0 <= m <= 10
    ensures MonthStart(m + 1) <= 337 && MonthStart(m + 1) < MonthStart(m + 2)
  {
  }

  /** The calendar's next day is the date of the next count. */
  lemma DatesFollow(c: Count)
    requires Counted(c)
    ensures Valid(DateAt(c)) && DateAt(NextCount(c)) == Next(DateAt(c))
  {
    hide IsLeap, YearStart, YearEnd, MonthPrime, MonthStart, DaysIn, DateAt, DaysAt;
    var m, next := MonthPrime(c.day), NextCount(c);
    InMonth(c);
    NextCountIsNext(c);
    InMonth(next);
    FirstDay();
    if m == 11 { LastMonthEnd(m); }
    if next.day == c.day + 1 && c.day + 1 < MonthStart(m + 1) {
      MonthUnique(c.day + 1, m);
    } else if next.day == c.day + 1 {
      MonthsWithin(m);
      MonthUnique(c.day + 1, m + 1);
    }
  }

  lemma FirstDay()
    ensures MonthPrime(0) == 0 && MonthStart(0) == 0
  {
  }

  lemma LastMonthEnd(m: int)
    requires m == 11
    ensures MonthStart(m + 1) == 367
  {
  }

  // ---- Main results --------------------------------------------------------------

  /** Day 0 is the first of January 1970, every day has a date of the calendar, and the next
    day has the calendar's next date. */
  lemma WalksTheCalendar(days: int)
    ensures Computed(0) == Date(1970, 1, 1)
    ensures Valid(Computed(days)) && Computed(days + 1) == Next(Computed(days))
  {
    hide Computed, DateAt, Next, DaysAt, NextCount, Counted, Valid;
    Epoch();
    var c := CountOf(days);
    NextCountIsNext(c);
    DatesFollow(c);
    ComputedIsDateAt(c);
    ComputedIsDateAt(NextCount(c));
  }

  lemma Epoch()
    ensures Computed(0) == Date(1970, 1, 1)
  {
    var c := Count(4, 369, 306);
    ComputedIsDateAt(c);
    assert DaysAt(c) == 0;
  }

  /** Up to the last year that 32 bits hold nothing is lost by narrowing; from the next year on
    the year stays at the largest 32-bit number. */
  lemma NarrowingIsHarmlessIff(days: int)
    requires I32_MIN <= Computed(days).year
    ensures CivilFromDays(days) == Computed(days) <==> Computed(days).year <= I32_MAX
    ensures Computed(days).year > I32_MAX ==> CivilFromDays(days) == Computed(days).(year := I32_MAX)
  {
    WalksTheCalendar(days);
    hide Computed;
  }

  lemma NextIsLater(d: Date)
    requires Valid(d)
    ensures Earlier(d, Next(d))
  {
  }

  lemma EarlierTransitive(a: Date, b: Date, c: Date)
    requires Earlier(a, b) && Earlier(b, c)
    ensures Earlier(a, c)
  {
  }

  /** Later days have later dates, so no two days share one. */
  lemma {:induction false} DatesIncrease(a: int, b: int)
    requires a < b
    ensures Earlier(Computed(a), Computed(b))
    decreases b - a
  {
    WalksTheCalendar(b - 1);
    hide Computed, Earlier, Next, Valid;
    NextIsLater(Computed(b - 1));
    if a < b - 1 {
      DatesIncrease(a, b - 1);
      EarlierTransitive(Computed(a), Computed(b - 1), Computed(b));
    }
  }

  // ---- Timestamps ----------------------------------------------------------------

  /** The fields of a formatted timestamp. */
  datatype Stamp = Stamp(date: Date, hour: int, minute: int, second: int, millis: int)

  /** `format_unix_millis`, up to the padding of the numbers. */
  function FormatUnixMillis(seconds: nat, millis: nat): Stamp {
    var ofDay := seconds % 86400;
    Stamp(CivilFromDays(seconds / 86400), ofDay / 3600, ofDay % 3600 / 60, ofDay % 60, millis)
  }

  /** Down to the millisecond. */
  predicate StampEarlier(a: Stamp, b: Stamp) {
    Earlier(a.date, b.date) || (a.date == b.date &&
    (a.hour < b.hour || (a.hour == b.hour && (a.minute < b.minute || (a.minute == b.minute &&
    (a.second < b.second || (a.second == b.second && a.millis < b.millis)))))))
  }

  /** Timestamps have fields within the ranges of section 5.7 of RFC 3339, milliseconds included, and
    follow the order of time, as long as the year fits 32 bits. */
  lemma StampsFollowTime(s: nat, milli: nat, t: nat, millis: nat)
    requires Computed(t / 86400).year <= I32_MAX && milli < 1000 && millis < 1000
    requires s * 1000 + milli < t * 1000 + millis
    ensures var b := FormatUnixMillis(t, millis);
      && Valid(b.date) && 0 <= b.hour <= 23 && 0 <= b.minute <= 59 && 0 <= b.second <= 59 && 0 <= b.millis <= 999
      && StampEarlier(FormatUnixMillis(s, milli), b)
  {
    hide Computed, Valid, Earlier;
    var d, e := s / 86400, t / 86400;
    WalksTheCalendar(e);
    AfterEpoch(d);
    AfterEpoch(e);
    if d < e { DatesIncrease(d, e); }
    NarrowingIsHarmlessIff(d);
    NarrowingIsHarmlessIff(e);
    WithinDay(s % 86400, t % 86400);
    EarlierYears(Computed(d), Computed(e));
    hide CivilFromDays;
  }

  lemma EarlierYears(a: Date, b: Date)
    ensures Earlier(a, b) ==> a.year <= b.year
  {
  }

  lemma AfterEpoch(days: nat)
    ensures 1970 <= Computed(days).year
  {
    Epoch();
    if days > 0 { DatesIncrease(0, days); }
    hide Computed;
  }

  lemma WithinDay(x: int, y: int)
    requires 0 <= x < 86400 && 0 <= y < 86400
    ensures 0 <= y / 3600 <= 23 && 0 <= y % 3600 / 60 <= 59 && 0 <= y % 60 <= 59
    ensures x < y ==>
      || x / 3600 < y / 3600
      || (x / 3600 == y / 3600 &&
           (x % 3600 / 60 < y % 3600 / 60 || (x % 3600 / 60 == y % 3600 / 60 && x % 60 < y % 60)))
  {
  }
}
