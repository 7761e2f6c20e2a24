/** The UTC calendar of `time/mod.rs`: the closed-form date algorithm, the day-by-day
    Gregorian calendar it has to agree with, and the time stamps printed from it. */
module Calendar {
  import opened Text

  datatype Date = Date(year: nat, month: nat, day: nat)

  datatype DateTime = DateTime(date: Date, hour: nat, minute: nat, second: nat)

  // ----- The reference: RFC 3339 month lengths and leap years, one day at a time -----

  predicate IsLeapYear(y: nat) {
    y % 4 == 0 && (y % 100 != 0 || y % 400 == 0)
  }

  function DaysInMonth(y: nat, m: nat): nat {
    if m == 2 then if IsLeapYear(y) then 29 else 28
    else if m == 4 || m == 6 || m == 9 || m == 11 then 30
    else 31
  }

  function NextDay(d: Date): Date {
    if d.day < DaysInMonth(d.year, d.month) then d.(day := d.day + 1)
    else if d.month < 12 then Date(d.year, d.month + 1, 1)
    else Date(d.year + 1, 1, 1)
  }

  /** The date reached by stepping `n` days from 1970-01-01. */
  ghost function DateAfter(n: nat): Date {
    if n == 0 then Date(1970, 1, 1) else NextDay(DateAfter(n - 1))
  }

  // ----- The closed form -----

  /** First day of the year `q` of an era, counted in years that begin on 1 March. */
  function YearStart(q: nat): nat {
    365 * q + q / 4 - q / 100 + q / 400
  }

  function YearOfEra(doe: nat): nat {
    (doe - doe / 1_460 + doe / 36_524 - doe / 146_096) / 365
  }

  lemma ScaledGap(d: nat, x: nat, y: nat)
    requires x < y
    ensures d * x + d <= d * y
  {
    assert d * y == d * x + d * (y - x);
    assert d * (y - x) == d + d * (y - x - 1);
  }

  lemma QuotientIs(n: nat, d: nat, q: nat, r: nat)
    requires r < d && n == d * q + r
    ensures n / d == q && n % d == r
  {
    var k := n / d;
    assert n == d * k + n % d;
    if k < q {
      ScaledGap(d, k, q);
    } else if q < k {
      ScaledGap(d, q, k);
    }
  }

  lemma NextQuotient(n: nat, d: nat)
    requires d > 0
    ensures (n + 1) / d == n / d + if (n + 1) % d == 0 then 1 else 0
  {
    var q, r := n / d, n % d;
    assert n == d * q + r;
    if r + 1 == d {
      assert d * (q + 1) == d * q + d;
      if d == 1 {
        assert n == q;
      }
      QuotientIs(n + 1, d, q + 1, 0);
    } else {
      QuotientIs(n + 1, d, q, r + 1);
    }
  }

  lemma YearLength(q: nat)
    ensures 365 <= YearStart(q + 1) - YearStart(q) <= 366
    ensures YearStart(q + 1) - YearStart(q) == 366 <==> IsLeapYear(q + 1)
  {
    NextQuotient(q, 4);
    NextQuotient(q, 100);
    NextQuotient(q, 400);
    var c, e := (q + 1) / 100, (q + 1) / 400;
    if (q + 1) % 100 == 0 {
      QuotientIs(q + 1, 4, 25 * c, 0);
    }
    if (q + 1) % 400 == 0 {
      QuotientIs(q + 1, 100, 4 * e, 0);
    }
  }

  lemma {:induction false} YearStartIsMonotone(p: nat, q: nat)
    requires p <= q
    ensures YearStart(p) + 365 * (q - p) <= YearStart(q)
  {
    hide YearStart;
    if p < q {
      YearStartIsMonotone(p, q - 1);
      YearLength(q - 1);
    }
  }

  /** A day of an era in centuries, four-year cycles, years and days. */
  lemma EraParts(doe: nat) returns (c: nat, b: nat, a: nat, doy: nat)
    requires doe < 146_097
    ensures c <= 3 && b <= 24 && a <= 3 && doy <= 365
    ensures doe == 36_524 * c + 1_461 * b + 365 * a + doy
    ensures doy == 365 ==> a == 3 && (b < 24 || c == 3)
  {
    c := if doe < 36_524 then 0 else if doe < 73_048 then 1 else if doe < 109_572 then 2 else 3;
    var r := doe - 36_524 * c;
    b := if r / 1_461 < 24 then r / 1_461 else 24;
    var t := r - 1_461 * b;
    a := if t < 365 then 0 else if t < 730 then 1 else if t < 1_095 then 2 else 3;
    doy := t - 365 * a;
  }

  lemma YearOfParts(c: nat, b: nat, a: nat, doy: nat, doe: nat)
    requires c <= 3 && b <= 24 && a <= 3 && doy <= 365
    requires doe == 36_524 * c + 1_461 * b + 365 * a + doy
    requires doy == 365 ==> a == 3 && (b < 24 || c == 3)
    ensures YearOfEra(doe) == 100 * c + 4 * b + a
  {
    var rest := 24 * c + b + 365 * a + doy;
    var k := 25 * c + b + if rest >= 1_460 then 1 else 0;
    QuotientIs(doe, 1_460, k, rest - if rest >= 1_460 then 1_460 else 0);
    var low := 1_461 * b + 365 * a + doy;
    QuotientIs(doe, 36_524, c + if low == 36_524 then 1 else 0, if low == 36_524 then 0 else low);
    QuotientIs(doe, 146_096, if doe == 146_096 then 1 else 0, if doe == 146_096 then 0 else doe);
    var n := 365 * (100 * c + 4 * b + a) + doy - if rest >= 1_460 then 1 else 0;
    assert doe - doe / 1_460 + doe / 36_524 - doe / 146_096 == n;
    QuotientIs(n, 365, 100 * c + 4 * b + a, doy - if rest >= 1_460 then 1 else 0);
  }

  lemma StartOfParts(c: nat, b: nat, a: nat)
    requires c <= 3 && b <= 24 && a <= 3
    ensures YearStart(100 * c + 4 * b + a) == 36_524 * c + 1_461 * b + 365 * a
  {
    var q := 100 * c + 4 * b + a;
    QuotientIs(q, 4, 25 * c + b, a);
    QuotientIs(q, 100, c, 4 * b + a);
    QuotientIs(q, 400, 0, q);
  }

  /** The division by 365 after the three leap corrections finds the right year. */
  lemma YearOfEraIsExact(doe: nat)
    requires doe < 146_097
    ensures YearOfEra(doe) < 400
    ensures YearStart(YearOfEra(doe)) <= doe < YearStart(YearOfEra(doe) + 1)
  {
    var c, b, a, doy := EraParts(doe);
    YearOfParts(c, b, a, doy, doe);
    StartOfParts(c, b, a);
    var q := 100 * c + 4 * b + a;
    YearLength(q);
    if doy == 365 {
      QuotientIs(q + 1, 4, 25 * c + b + 1, 0);
      if b == 24 {
        assert q + 1 == 400;
      } else {
        QuotientIs(q + 1, 100, c, 4 * b + 4);
      }
    }
  }

  lemma YearIsUnique(p: nat, q: nat, doe: nat)
    requires YearStart(p) <= doe < YearStart(p + 1)
    requires YearStart(q) <= doe < YearStart(q + 1)
    ensures p == q
  {
    hide YearStart;
    if p < q {
      YearsAreDisjoint(p, q);
    } else if q < p {
      YearsAreDisjoint(q, p);
    }
  }

  lemma YearsAreDisjoint(p: nat, q: nat)
    requires p < q
    ensures YearStart(p + 1) <= YearStart(q)
  {
    YearStartIsMonotone(p + 1, q);
  }

  /** Date of the day `doy` of the year `y` that begins on 1 March. */
  function MarchDate(y: nat, doy: nat): Date
    requires doy < 366
  {
    var mp := (5 * doy + 2) / 153;
    var day: nat := doy - (153 * mp + 2) / 5 + 1;
    var month: nat := if mp < 10 then mp + 3 else mp - 9;
    Date(y + if month <= 2 then 1 else 0, month, day)
  }

  /** Every subtraction is on naturals: none underflows. */
  function DateOfDay(days: nat): Date {
    var z := days + 719_468;
    var era := z / 146_097;
    var doe: nat := z - era * 146_097;
    YearOfEraIsExact(doe);
    var yoe := YearOfEra(doe);
    assert yoe / 400 == 0;
    var doy: nat := doe - (365 * yoe + yoe / 4 - yoe / 100);
    YearLength(yoe);
    MarchDate(yoe + era * 400, doy)
  }

  lemma MarchDateSteps(y: nat, doy: nat)
    requires doy < 365
    requires doy == 364 ==> IsLeapYear(y + 1)
    ensures MarchDate(y, doy + 1) == NextDay(MarchDate(y, doy))
  {
    var mp := (5 * doy + 2) / 153;
    assert mp == 0 || mp == 1 || mp == 2 || mp == 3 || mp == 4 || mp == 5 || mp == 6
      || mp == 7 || mp == 8 || mp == 9 || mp == 10 || mp == 11;
  }

  lemma LeapYearOfEra(era: nat, yoe: nat)
    ensures IsLeapYear(400 * era + yoe) <==> IsLeapYear(yoe)
  {
    var y := 400 * era + yoe;
    QuotientIs(y, 4, 100 * era + yoe / 4, yoe % 4);
    QuotientIs(y, 100, 4 * era + yoe / 100, yoe % 100);
    QuotientIs(y, 400, era + yoe / 400, yoe % 400);
  }

  lemma EraDays()
    ensures YearStart(400) == 146_097
  {}

  /** The date of a day given by era, year of era and day of year. */
  lemma DateOfParts(days: nat, era: nat, yoe: nat, doy: nat)
    requires yoe < 400 && days + 719_468 == 146_097 * era + YearStart(yoe) + doy
    requires doy < YearStart(yoe + 1) - YearStart(yoe)
    ensures doy < 366 && DateOfDay(days) == MarchDate(yoe + era * 400, doy)
  {
    hide MarchDate;
    var doe := YearStart(yoe) + doy;
    YearInEra(yoe, doy);
    QuotientIs(days + 719_468, 146_097, era, doe);
    QuotientIs(yoe, 400, 0, yoe);
    hide YearOfEra;
  }

  lemma YearInEra(yoe: nat, doy: nat)
    requires yoe < 400 && doy < YearStart(yoe + 1) - YearStart(yoe)
    ensures doy < 366 && YearStart(yoe) + doy < 146_097
    ensures YearOfEra(YearStart(yoe) + doy) == yoe
  {
    hide YearOfEra;
    EraDays();
    hide YearStart;
    var doe := YearStart(yoe) + doy;
    YearLength(yoe);
    YearStartIsMonotone(yoe + 1, 400);
    YearOfEraIsExact(doe);
    YearIsUnique(YearOfEra(doe), yoe, doe);
  }

  /** One more day is one calendar step. */
  lemma DateOfDaySteps(days: nat)
    ensures DateOfDay(days + 1) == NextDay(DateOfDay(days))
  {
    hide DateOfDay;
    hide MarchDate;
    hide YearOfEra;
    hide IsLeapYear;
    var z := days + 719_468;
    var era, doe := z / 146_097, z % 146_097;
    YearOfEraIsExact(doe);
    var yoe := YearOfEra(doe);
    var doy := doe - YearStart(yoe);
    DateOfParts(days, era, yoe, doy);
    YearLength(yoe);
    LeapYearOfEra(era, yoe + 1);
    assert 400 * era + (yoe + 1) == yoe + era * 400 + 1;
    if doe + 1 < YearStart(yoe + 1) {
      DateOfParts(days + 1, era, yoe, doy + 1);
      MarchDateSteps(yoe + era * 400, doy);
    } else {
      MarchYearEnds(yoe + era * 400, doy);
      if yoe == 399 {
        EraDays();
        DateOfParts(days + 1, era + 1, 0, 0);
      } else {
        YearLength(yoe + 1);
        DateOfParts(days + 1, era, yoe + 1, 0);
      }
    }
  }

  lemma MarchYearEnds(y: nat, doy: nat)
    requires doy == if IsLeapYear(y + 1) then 365 else 364
    ensures NextDay(MarchDate(y, doy)) == MarchDate(y + 1, 0)
  {
    QuotientIs(5 * doy + 2, 153, 11, 5 * doy + 2 - 1_683);
  }

  lemma EpochIsFirst()
    ensures DateOfDay(0) == Date(1970, 1, 1)
  {
    StartOfParts(3, 17, 1);
    YearLength(369);
    DateOfParts(0, 4, 369, 306);
  }

  /** The closed form gives the date reached by counting days. */
  lemma {:induction false} DateOfDayIsGregorian(days: nat)
    ensures DateOfDay(days) == DateAfter(days)
  {
    hide DateOfDay;
    if days == 0 {
      EpochIsFirst();
    } else {
      DateOfDayIsGregorian(days - 1);
      DateOfDaySteps(days - 1);
    }
  }

  // ----- Seconds -----

  /** `utc_ymdhms`; the year is cast to 32 bits. */
  function UtcYmdhms(seconds: nat): DateTime {
    var date := DateOfDay(seconds / 86_400);
    var secs := seconds % 86_400;
    var rest := secs % 3_600;
    DateTime(date.(year := date.year % 0x1_0000_0000), secs / 3_600, rest / 60, rest % 60)
  }

  /** Days before a date, by adding up whole years and whole months since 1970. */
  function DaysBeforeYear(y: nat): nat {
    if y <= 1970 then 0 else DaysBeforeYear(y - 1) + if IsLeapYear(y - 1) then 366 else 365
  }

  function DaysBeforeMonth(y: nat, m: nat): nat {
    if m <= 1 then 0 else DaysBeforeMonth(y, m - 1) + DaysInMonth(y, m - 1)
  }

  function DayNumber(d: Date): int {
    DaysBeforeYear(d.year) + DaysBeforeMonth(d.year, d.month) + d.day - 1
  }

  predicate IsDate(d: Date) {
    1970 <= d.year && 1 <= d.month <= 12 && 1 <= d.day <= DaysInMonth(d.year, d.month)
  }

  lemma MonthsOfYear(y: nat)
    ensures DaysBeforeMonth(y, 12) + 31 == if IsLeapYear(y) then 366 else 365
  {
    assert DaysBeforeMonth(y, 1) == 0;
    assert DaysBeforeMonth(y, 3) == 31 + DaysInMonth(y, 2);
    assert DaysBeforeMonth(y, 5) == DaysBeforeMonth(y, 3) + 61;
    assert DaysBeforeMonth(y, 7) == DaysBeforeMonth(y, 5) + 61;
    assert DaysBeforeMonth(y, 9) == DaysBeforeMonth(y, 7) + 62;
    assert DaysBeforeMonth(y, 11) == DaysBeforeMonth(y, 9) + 61;
  }

  lemma {:induction false} DayNumberOfDate(n: nat)
    ensures IsDate(DateAfter(n)) && DayNumber(DateAfter(n)) == n
  {
    hide NextDay;
    if n > 0 {
      DayNumberOfDate(n - 1);
      NextDayNumber(DateAfter(n - 1));
    }
  }

  lemma NextDayNumber(d: Date)
    requires IsDate(d)
    ensures IsDate(NextDay(d)) && DayNumber(NextDay(d)) == DayNumber(d) + 1
  {
    hide IsLeapYear;
    if d.day == DaysInMonth(d.year, d.month) && d.month == 12 {
      MonthsOfYear(d.year);
    }
  }

  /** Recombine the six fields into Unix seconds. */
  function ToSeconds(t: DateTime): int {
    DayNumber(t.date) * 86_400 + t.hour * 3_600 + t.minute * 60 + t.second
  }

  lemma TimeOfDay(secs: nat)
    requires secs < 86_400
    ensures secs / 3_600 < 24 && (secs % 3_600) / 60 < 60
    ensures secs / 3_600 * 3_600 + (secs % 3_600) / 60 * 60 + (secs % 3_600) % 60 == secs
  {}

  /** The six fields are a valid UTC time of the Gregorian date, and they give the second back,
      exactly when the year fits in 32 bits. */
  lemma UtcYmdhmsIsExact(seconds: nat)
    ensures var t := UtcYmdhms(seconds); var date := DateAfter(seconds / 86_400);
            && t.hour < 24 && t.minute < 60 && t.second < 60
            && (t.date == date && ToSeconds(t) == seconds <==> date.year < 0x1_0000_0000)
  {
    hide DateOfDay;
    hide DayNumber;
    var days := seconds / 86_400;
    DateOfDayIsGregorian(days);
    DayNumberOfDate(days);
    TimeOfDay(seconds % 86_400);
    assert seconds == days * 86_400 + seconds % 86_400;
  }

  /** The fields read as one decimal number, the order of the printed stamp. */
  function Ordinal(t: DateTime): nat {
    ((((t.date.year * 100 + t.date.month) * 100 + t.date.day) * 100 + t.hour) * 100 + t.minute) * 100 + t.second
  }

  function DateOrdinal(d: Date): nat {
    (d.year * 100 + d.month) * 100 + d.day
  }

  lemma {:induction false} DateOrderIsDayOrder(m: nat, n: nat)
    requires m < n
    ensures DateOrdinal(DateAfter(m)) < DateOrdinal(DateAfter(n))
  {
    DayNumberOfDate(n - 1);
    if m < n - 1 {
      DateOrderIsDayOrder(m, n - 1);
    }
  }

  /** Later seconds have later stamps. */
  lemma OrdinalIsMonotone(a: nat, b: nat)
    requires a < b && DateAfter(b / 86_400).year < 0x1_0000_0000
    requires DateAfter(a / 86_400).year < 0x1_0000_0000
    ensures Ordinal(UtcYmdhms(a)) < Ordinal(UtcYmdhms(b))
  {
    UtcYmdhmsIsExact(a);
    UtcYmdhmsIsExact(b);
    hide UtcYmdhms;
    hide DayNumber;
    var s, t := UtcYmdhms(a), UtcYmdhms(b);
    if a / 86_400 < b / 86_400 {
      DateOrderIsDayOrder(a / 86_400, b / 86_400);
    } else {
      SameDay(a, b);
    }
    FieldOrder(s, t);
  }

  lemma SameDay(a: nat, b: nat)
    requires a < b && a / 86_400 >= b / 86_400
    ensures a / 86_400 == b / 86_400
  {}

  lemma FieldOrder(s: DateTime, t: DateTime)
    requires s.hour < 24 && s.minute < 60 && s.second < 60 && t.hour < 24 && t.minute < 60 && t.second < 60
    requires DateOrdinal(s.date) < DateOrdinal(t.date) || (s.date == t.date && ToSeconds(s) < ToSeconds(t))
    ensures Ordinal(s) < Ordinal(t)
  {
    hide DayNumber;
    var x, y := DateOrdinal(s.date), DateOrdinal(t.date);
    assert Ordinal(s) == x * 1_000_000 + s.hour * 10_000 + s.minute * 100 + s.second;
    assert Ordinal(t) == y * 1_000_000 + t.hour * 10_000 + t.minute * 100 + t.second;
    if s.date == t.date {
      TimeOrder(s.hour, s.minute, s.second, t.hour, t.minute, t.second);
    }
  }

  lemma TimeOrder(h: nat, m: nat, s: nat, h': nat, m': nat, s': nat)
    requires m < 60 && s < 60 && m' < 60 && s' < 60
    requires h * 3_600 + m * 60 + s < h' * 3_600 + m' * 60 + s'
    ensures h < h' || (h == h' && (m < m' || (m == m' && s < s')))
  {}
}
