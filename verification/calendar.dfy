/**
 * The civil dates of core/src/log.rs: the day-number algorithm, checked against a reference that
 * counts the days of the proleptic Gregorian calendar, and the date texts that log retention compares.
 */
module Calendar {
  import opened Wrappers

  datatype Date = Date(year: int, month: int, day: int)

  // ---------------------------------------------------------------- the algorithm

  /** The `/` of the program's signed integers, which rounds towards zero. */
  function Quotient(a: int, b: int): int
    requires 0 < b
  {
    if a >= 0 then a / b else -(-a / b)
  }

  function FromUnixDay(unixDay: int): Date {
    var day := unixDay + 719_468;
    var era := Quotient(if day >= 0 then day else day - 146_096, 146_097);
    InEra(era, day - era * 146_097)
  }

  /** The date of a day of a 400-year era; years begin in March. */
  function InEra(era: int, dayOfEra: int): Date {
    var yearOfEra := YearOfEra(dayOfEra);
    var dayOfYear := dayOfEra - (365 * yearOfEra + Quotient(yearOfEra, 4) - Quotient(yearOfEra, 100));
    var monthPrime := Quotient(5 * dayOfYear + 2, 153);
    var dayOfMonth := dayOfYear - Quotient(153 * monthPrime + 2, 5) + 1;
    var month := monthPrime + if monthPrime < 10 then 3 else -9;
    Date(yearOfEra + era * 400 + if month <= 2 then 1 else 0, month, dayOfMonth)
  }

  function YearOfEra(dayOfEra: int): int {
    Quotient(dayOfEra - Quotient(dayOfEra, 1_460) + Quotient(dayOfEra, 36_524) - Quotient(dayOfEra, 146_096), 365)
  }

  // ---------------------------------------------------------------- the Gregorian calendar

  predicate Leap(year: int) {
    year % 4 == 0 && (year % 100 != 0 || year % 400 == 0)
  }

  function MonthLength(year: int, month: int): int {
    if month == 2 then if Leap(year) then 29 else 28
    else if month == 4 || month == 6 || month == 9 || month == 11 then 30
    else 31
  }

  predicate Valid(d: Date) {
    1 <= d.month <= 12 && 1 <= d.day <= MonthLength(d.year, d.month)
  }

  function Successor(d: Date): Date {
    if d.day < MonthLength(d.year, d.month) then Date(d.year, d.month, d.day + 1)
    else if d.month < 12 then Date(d.year, d.month + 1, 1)
    else Date(d.year + 1, 1, 1)
  }

  predicate Before(a: Date, b: Date) {
    a.year < b.year || (a.year == b.year && (a.month < b.month || (a.month == b.month && a.day < b.day)))
  }

  /** The leap years from year 1 to `year`, negative when they lie below. */
  function LeapsUpTo(year: int): int {
    year / 4 - year / 100 + year / 400
  }

  /** Days from 1970-01-01 to the first of January. */
  function DaysBeforeYear(year: int): int {
    365 * (year - 1970) + LeapsUpTo(year - 1) - LeapsUpTo(1969)
  }

  function DaysBeforeMonth(year: int, month: int): int
    requires 1 <= month <= 12
    decreases month
  {
    if month == 1 then 0 else DaysBeforeMonth(year, month - 1) + MonthLength(year, month - 1)
  }

  /** The reference: how many days a valid date lies after 1970-01-01. */
  function DayNumber(d: Date): int
    requires Valid(d)
  {
    DaysBeforeYear(d.year) + DaysBeforeMonth(d.year, d.month) + d.day - 1
  }

  lemma MultiplesStep(year: int)
    ensures year / 4 == (year - 1) / 4 + if year % 4 == 0 then 1 else 0
    ensures year / 100 == (year - 1) / 100 + if year % 100 == 0 then 1 else 0
    ensures year / 400 == (year - 1) / 400 + if year % 400 == 0 then 1 else 0
  {
  }

  lemma EraShift(era: int, y: int)
    ensures (y + era * 400) / 4 == y / 4 + 100 * era && (y + era * 400) % 4 == y % 4
    ensures (y + era * 400) / 100 == y / 100 + 4 * era && (y + era * 400) % 100 == y % 100
    ensures (y + era * 400) / 400 == y / 400 + era && (y + era * 400) % 400 == y % 400
  {
  }

  lemma MultiplesNest(year: int)
    ensures year % 400 == 0 ==> year % 100 == 0
    ensures year % 100 == 0 ==> year % 4 == 0
  {
    var r := year % 400;
    EraShift(year / 400, r);
    assert r == 100 * (r / 100) + r % 100 && 0 <= r / 100 < 4;
  }

  lemma YearLength(year: int)
    ensures DaysBeforeYear(year + 1) == DaysBeforeYear(year) + if Leap(year) then 366 else 365
  {
    MultiplesStep(year);
    MultiplesNest(year);
  }

  /** The months laid end to end; written out, since there are twelve. */
  lemma MonthStarts(year: int)
    ensures var leap := if Leap(year) then 1 else 0;
      && DaysBeforeMonth(year, 1) == 0 && DaysBeforeMonth(year, 2) == 31 && DaysBeforeMonth(year, 3) == 59 + leap
      && DaysBeforeMonth(year, 4) == 90 + leap && DaysBeforeMonth(year, 5) == 120 + leap
      && DaysBeforeMonth(year, 6) == 151 + leap && DaysBeforeMonth(year, 7) == 181 + leap
      && DaysBeforeMonth(year, 8) == 212 + leap && DaysBeforeMonth(year, 9) == 243 + leap
      && DaysBeforeMonth(year, 10) == 273 + leap && DaysBeforeMonth(year, 11) == 304 + leap
      && DaysBeforeMonth(year, 12) == 334 + leap
  {
    assert DaysBeforeMonth(year, 3) == DaysBeforeMonth(year, 2) + MonthLength(year, 2);
    assert DaysBeforeMonth(year, 5) == DaysBeforeMonth(year, 4) + 30;
    assert DaysBeforeMonth(year, 7) == DaysBeforeMonth(year, 6) + 30;
    assert DaysBeforeMonth(year, 9) == DaysBeforeMonth(year, 8) + 31;
    assert DaysBeforeMonth(year, 11) == DaysBeforeMonth(year, 10) + 31;
  }

  lemma {:induction false} MonthsIncrease(year: int, a: int, b: int)
    requires 1 <= a < b <= 12
    ensures DaysBeforeMonth(year, a) + MonthLength(year, a) <= DaysBeforeMonth(year, b)
    decreases b
  {
    if a + 1 < b {
      MonthsIncrease(year, a, b - 1);
    }
  }

  lemma {:induction false} YearsIncrease(a: int, b: int)
    requires a <= b
    ensures DaysBeforeYear(a) + 365 * (b - a) <= DaysBeforeYear(b)
    decreases b - a
  {
    if a < b {
      YearsIncrease(a, b - 1);
      YearLength(b - 1);
    }
  }

  lemma WithinYear(d: Date)
    requires Valid(d)
    ensures DaysBeforeYear(d.year) <= DayNumber(d) < DaysBeforeYear(d.year + 1)
  {
    YearLength(d.year);
    MonthStarts(d.year);
    if d.month > 1 {
      MonthsIncrease(d.year, 1, d.month);
    }
    if d.month < 12 {
      MonthsIncrease(d.year, d.month, 12);
    }
  }

  /** The reference counts in calendar order. */
  lemma CountFollowsOrder(a: Date, b: Date)
    requires Valid(a) && Valid(b) && Before(a, b)
    ensures DayNumber(a) < DayNumber(b)
  {
    if a.year < b.year {
      WithinYear(a);
      WithinYear(b);
      YearsIncrease(a.year + 1, b.year);
    } else if a.month < b.month {
      MonthsIncrease(a.year, a.month, b.month);
    }
  }

  lemma CountIsInjective(a: Date, b: Date)
    requires Valid(a) && Valid(b) && DayNumber(a) == DayNumber(b)
    ensures a == b
  {
    if Before(a, b) {
      CountFollowsOrder(a, b);
    } else if Before(b, a) {
      CountFollowsOrder(b, a);
    }
  }

  lemma SuccessorCounts(d: Date)
    requires Valid(d)
    ensures Valid(Successor(d)) && DayNumber(Successor(d)) == DayNumber(d) + 1
  {
    YearLength(d.year);
    MonthStarts(d.year);
    if d.day == MonthLength(d.year, d.month) && d.month < 12 {
      assert DaysBeforeMonth(d.year, d.month + 1) == DaysBeforeMonth(d.year, d.month) + MonthLength(d.year, d.month);
    }
  }

  // ---------------------------------------------------------------- the algorithm meets the calendar

  /** Days from the start of an era to the first of March of its year `y`. */
  function MarchOfEra(y: int): int {
    365 * y + y / 4 - y / 100
  }

  lemma EraOfDay(day: int, era: int)
    requires era == Quotient(if day >= 0 then day else day - 146_096, 146_097)
    ensures 0 <= day - era * 146_097 < 146_097
  {
    if day < 0 {
      var q, r := day / 146_097, day % 146_097;
      assert day == 146_097 * q + r;
      assert -(day - 146_096) == 146_097 * -q + (146_096 - r);
      assert (146_097 * -q + (146_096 - r)) / 146_097 == -q;
    }
  }

  /** An era splits into centuries, four-year groups and years; only the last of each is longer. */
  lemma SplitEra(doe: int) returns (c: int, q: int, b: int, r: int)
    requires 0 <= doe < 146_097
    ensures doe == 36_524 * c + 1_461 * q + 365 * b + r
    ensures 0 <= c <= 3 && 0 <= q <= 24 && 0 <= b <= 3 && 0 <= r <= 365
    ensures r == 365 ==> b == 3 && (q < 24 || c == 3)
  {
    c := if doe / 36_524 > 3 then 3 else doe / 36_524;
    var inCentury := doe - 36_524 * c;
    q := inCentury / 1_461;
    var inGroup := inCentury - 1_461 * q;
    b := if inGroup / 365 > 3 then 3 else inGroup / 365;
    r := inGroup - 365 * b;
  }

  lemma YearOfSplit(doe: int, c: int, q: int, b: int, r: int)
    requires doe == 36_524 * c + 1_461 * q + 365 * b + r
    requires 0 <= c <= 3 && 0 <= q <= 24 && 0 <= b <= 3 && 0 <= r <= 365
    requires r == 365 ==> b == 3 && (q < 24 || c == 3)
    ensures YearOfEra(doe) == 100 * c + 4 * q + b
  {
    var extra := 24 * c + q + 365 * b + r;
    var late := if extra >= 1_460 then 1 else 0;
    assert doe == 1_460 * (25 * c + q) + extra;
    assert doe / 1_460 == 25 * c + q + late;
    var wraps := if doe == 146_096 then 1 else 0;
    assert doe / 36_524 == c + wraps;
    assert doe / 146_096 == wraps;
    assert doe - doe / 1_460 + doe / 36_524 - doe / 146_096 == 365 * (100 * c + 4 * q + b) + (r - late);
    assert 0 <= r - late < 365;
  }

  /** The last year of a four-year group, unless that group ends a century that is not the last. */
  lemma LongYearIsLeap(c: int, q: int)
    requires 0 <= c <= 3 && 0 <= q <= 24 && (q < 24 || c == 3)
    ensures Leap(100 * c + 4 * q + 4)
  {
    assert 100 * c + 4 * q + 4 == 4 * (25 * c + q + 1);
    if q < 24 {
      assert (100 * c + 4 * q + 4) % 100 == 4 * q + 4;
    }
  }

  lemma YearInEra(doe: int) returns (y: int)
    requires 0 <= doe < 146_097
    ensures y == YearOfEra(doe) && 0 <= y <= 399
    ensures 0 <= doe - MarchOfEra(y) <= 365
    ensures doe - MarchOfEra(y) == 365 ==> Leap(y + 1)
  {
    var c, q, b, r := SplitEra(doe);
    YearOfSplit(doe, c, q, b, r);
    y := 100 * c + 4 * q + b;
    assert y / 4 == 25 * c + q && y / 100 == c;
    assert doe - MarchOfEra(y) == r;
    if r == 365 {
      LongYearIsLeap(c, q);
    }
  }

  lemma MonthInYear(doy: int) returns (mp: int)
    requires 0 <= doy <= 365
    ensures mp == (5 * doy + 2) / 153 && 0 <= mp <= 11
    ensures mp < 10 ==> (153 * mp + 2) / 5 <= doy < (153 * (mp + 1) + 2) / 5
    ensures mp == 10 ==> 306 <= doy < 337
    ensures mp == 11 ==> 337 <= doy
  {
    mp := (5 * doy + 2) / 153;
  }

  /** The lengths of the months from March on, as the algorithm has them. */
  lemma MarchMonths(year: int, mp: int)
    requires 0 <= mp <= 9
    ensures var leap := if Leap(year) then 1 else 0;
      && DaysBeforeMonth(year, mp + 3) == 59 + leap + (153 * mp + 2) / 5
      && MonthLength(year, mp + 3) == (153 * (mp + 1) + 2) / 5 - (153 * mp + 2) / 5
  {
    MonthStarts(year);
    if mp == 0 {
    } else if mp == 1 {
    } else if mp == 2 {
    } else if mp == 3 {
    } else if mp == 4 {
    } else if mp == 5 {
    } else if mp == 6 {
    } else if mp == 7 {
    } else if mp == 8 {
    } else {
    }
  }

  lemma MarchOfYear(era: int, y: int)
    requires 0 <= y <= 399
    ensures var year := y + era * 400;
      && DaysBeforeYear(year) + 59 + (if Leap(year) then 1 else 0) == era * 146_097 + MarchOfEra(y) - 719_468
      && DaysBeforeYear(year + 1) == era * 146_097 + MarchOfEra(y) + 306 - 719_468
      && (Leap(year + 1) <==> Leap(y + 1))
  {
    YearLength(y + era * 400);
    EraShift(era, y);
    EraShift(era, y + 1);
  }

  /** From March to December. */
  lemma DateFromMarch(era: int, doe: int, y: int, doy: int, mp: int)
    requires 0 <= doe < 146_097 && y == YearOfEra(doe) && 0 <= y <= 399
    requires doy == doe - MarchOfEra(y) && 0 <= doy <= 365
    requires mp == (5 * doy + 2) / 153 && 0 <= mp < 10 && (153 * mp + 2) / 5 <= doy < (153 * (mp + 1) + 2) / 5
    ensures Valid(InEra(era, doe)) && DayNumber(InEra(era, doe)) == era * 146_097 + doe - 719_468
  {
    var year := y + era * 400;
    assert InEra(era, doe) == Date(year, mp + 3, doy - (153 * mp + 2) / 5 + 1);
    MarchOfYear(era, y);
    MarchMonths(year, mp);
  }

  /** January and February belong to the next year. */
  lemma DateFromJanuary(era: int, doe: int, y: int, doy: int, mp: int)
    requires 0 <= doe < 146_097 && y == YearOfEra(doe) && 0 <= y <= 399
    requires doy == doe - MarchOfEra(y) && 0 <= doy <= 365 && (doy == 365 ==> Leap(y + 1))
    requires mp == (5 * doy + 2) / 153 && ((mp == 10 && 306 <= doy < 337) || (mp == 11 && 337 <= doy))
    ensures Valid(InEra(era, doe)) && DayNumber(InEra(era, doe)) == era * 146_097 + doe - 719_468
  {
    var year := y + era * 400 + 1;
    assert InEra(era, doe) == Date(year, mp - 9, doy - (153 * mp + 2) / 5 + 1);
    MarchOfYear(era, y);
    MonthStarts(year);
  }

  lemma DateOfEveryDayInEra(era: int, doe: int, d: Date)
    requires 0 <= doe < 146_097 && d == InEra(era, doe)
    ensures Valid(d) && DayNumber(d) == era * 146_097 + doe - 719_468
  {
    var y := YearInEra(doe);
    var doy := doe - MarchOfEra(y);
    var mp := MonthInYear(doy);
    if mp < 10 {
      DateFromMarch(era, doe, y, doy, mp);
    } else {
      DateFromJanuary(era, doe, y, doy, mp);
    }
  }

  /** The date the program computes is a real date, and the one that lies `unixDay` days after 1970-01-01. */
  lemma DateOfEveryDay(unixDay: int)
    ensures Valid(FromUnixDay(unixDay)) && DayNumber(FromUnixDay(unixDay)) == unixDay
  {
    var day := unixDay + 719_468;
    var era := Quotient(if day >= 0 then day else day - 146_096, 146_097);
    EraOfDay(day, era);
    DateOfEveryDayInEra(era, day - era * 146_097, FromUnixDay(unixDay));
  }

  /** Every real date is the date of its own day: with `DateOfEveryDay`, a bijection. */
  lemma DayOfEveryDate(d: Date)
    requires Valid(d)
    ensures FromUnixDay(DayNumber(d)) == d
  {
    DateOfEveryDay(DayNumber(d));
    CountIsInjective(FromUnixDay(DayNumber(d)), d);
  }

  lemma EpochIsDayZero()
    ensures FromUnixDay(0) == Date(1970, 1, 1)
  {
  }

  lemma NextDayIsSuccessor(unixDay: int)
    ensures FromUnixDay(unixDay + 1) == Successor(FromUnixDay(unixDay))
  {
    var d := FromUnixDay(unixDay);
    DateOfEveryDay(unixDay);
    SuccessorCounts(d);
    var next := Successor(d);
    DayOfEveryDate(next);
    assert DayNumber(next) == unixDay + 1;
  }

  /** Strictly increasing, in both directions. */
  lemma DatesFollowDays(a: int, b: int)
    ensures a < b <==> Before(FromUnixDay(a), FromUnixDay(b))
  {
    DateOfEveryDay(a);
    DateOfEveryDay(b);
    if Before(FromUnixDay(a), FromUnixDay(b)) {
      CountFollowsOrder(FromUnixDay(a), FromUnixDay(b));
    } else if Before(FromUnixDay(b), FromUnixDay(a)) {
      CountFollowsOrder(FromUnixDay(b), FromUnixDay(a));
    }
  }

  // ---------------------------------------------------------------- dates as text

  function Digit(n: nat): char
    requires n < 10
  {
    (48 + n) as char
  }

  /** Decimal digits, padded with zeros on the left to at least `width` characters. */
  function Padded(n: nat, width: nat): string
    decreases n + width
  {
    if n < 10 && width <= 1 then [Digit(n)]
    else Padded(n / 10, if width == 0 then 0 else width - 1) + [Digit(n % 10)]
  }

  /** A sign counts towards the width. */
  function YearText(year: int): string {
    if year >= 0 then Padded(year, 4) else "-" + Padded(-year, 3)
  }

  function Text(d: Date): string
    requires Valid(d)
  {
    YearText(d.year) + ("-" + (Padded(d.month, 2) + ("-" + Padded(d.day, 2))))
  }

  /** How the program compares texts: character by character. */
  predicate Less(a: string, b: string) {
    b != "" && (a == "" || a[0] < b[0] || (a[0] == b[0] && Less(a[1..], b[1..])))
  }

  function TenTo(width: nat): (power: nat)
    ensures 0 < power
  {
    if width == 0 then 1 else 10 * TenTo(width - 1)
  }

  lemma LessCons(a: char, x: string, b: char, y: string)
    ensures Less([a] + x, [b] + y) <==> a < b || (a == b && Less(x, y))
  {
    assert ([a] + x)[1..] == x && ([b] + y)[1..] == y;
  }

  /** Numbers of the same width compare as numbers, whatever follows them. */
  lemma {:induction false} PaddedOrder(m: nat, n: nat, width: nat, x: string, y: string)
    requires 0 < width && m < TenTo(width) && n < TenTo(width)
    ensures |Padded(m, width)| == width
    ensures Less(Padded(m, width) + x, Padded(n, width) + y) <==> m < n || (m == n && Less(x, y))
    decreases width
  {
    if width == 1 {
      LessCons(Digit(m), x, Digit(n), y);
    } else {
      var d, e := Digit(m % 10), Digit(n % 10);
      PaddedOrder(m / 10, n / 10, width - 1, [d] + x, [e] + y);
      assert Padded(m, width) + x == Padded(m / 10, width - 1) + ([d] + x);
      assert Padded(n, width) + y == Padded(n / 10, width - 1) + ([e] + y);
      LessCons(d, x, e, y);
    }
  }

  lemma {:induction false} FirstDigit(n: nat, width: nat)
    ensures Padded(n, width) != "" && Padded(n, width)[0] >= '0'
    decreases n + width
  {
    if !(n < 10 && width <= 1) {
      FirstDigit(n / 10, if width == 0 then 0 else width - 1);
    }
  }

  lemma MonthAndDayOrder(a: Date, b: Date)
    requires Valid(a) && Valid(b)
    ensures Less("-" + (Padded(a.month, 2) + ("-" + Padded(a.day, 2))),
                 "-" + (Padded(b.month, 2) + ("-" + Padded(b.day, 2))))
       <==> a.month < b.month || (a.month == b.month && a.day < b.day)
  {
    assert TenTo(2) == 100;
    var x, y := "-" + Padded(a.day, 2), "-" + Padded(b.day, 2);
    LessCons('-', Padded(a.month, 2) + x, '-', Padded(b.month, 2) + y);
    PaddedOrder(a.month, b.month, 2, x, y);
    LessCons('-', Padded(a.day, 2), '-', Padded(b.day, 2));
    PaddedOrder(a.day, b.day, 2, "", "");
    assert Padded(a.day, 2) + "" == Padded(a.day, 2) && Padded(b.day, 2) + "" == Padded(b.day, 2);
  }

  /** Date texts compare as dates, up to the year 9999; the second date may even lie before the year 0. */
  lemma TextFollowsOrder(a: Date, b: Date)
    requires Valid(a) && Valid(b) && 0 <= a.year <= 9999 && b.year <= 9999
    ensures Less(Text(a), Text(b)) <==> Before(a, b)
  {
    var x := "-" + (Padded(a.month, 2) + ("-" + Padded(a.day, 2)));
    var y := "-" + (Padded(b.month, 2) + ("-" + Padded(b.day, 2)));
    if b.year >= 0 {
      assert TenTo(4) == 10 * TenTo(3) && TenTo(3) == 1000;
      PaddedOrder(a.year, b.year, 4, x, y);
      MonthAndDayOrder(a, b);
    } else {
      FirstDigit(a.year, 4);
      assert Text(b)[0] == '-';
    }
  }

  /** Beyond that the comparison can fail: the first day of the year 10000 sorts before the day it follows. */
  lemma TextOrderEnds()
    ensures Before(Date(9999, 12, 31), Date(10000, 1, 1)) && !Less(Text(Date(9999, 12, 31)), Text(Date(10000, 1, 1)))
  {
  }

  /** The leading four digits of a longer year, all of a shorter one. */
  function Leading(year: nat): nat {
    if year < 10_000 then year else Leading(year / 10)
  }

  /** Padding only matters to numbers that are shorter. */
  lemma {:induction false} NoPadding(n: nat, width: nat)
    requires TenTo(width) <= n
    ensures Padded(n, width) == Padded(n, width + 1)
    decreases n
  {
    if n >= 10 {
      NoPadding(n / 10, if width == 0 then 0 else width - 1);
    }
  }

  /** A longer year starts with its leading four digits, and goes on with a digit. */
  lemma {:induction false} LeadingDigits(year: nat) returns (rest: string)
    requires 10_000 <= year
    ensures 1_000 <= Leading(year) < 10_000
    ensures Padded(year, 4) == Padded(Leading(year), 4) + rest
    ensures rest != "" && '0' <= rest[0]
  {
    var last := [Digit(year % 10)];
    assert TenTo(3) == 1000;
    NoPadding(year / 10, 3);
    if year < 100_000 {
      rest := last;
    } else {
      rest := LeadingDigits(year / 10);
      rest := rest + last;
    }
  }

  /** Against a longer year the leading digits decide. */
  lemma AgainstLongerYear(a: Date, b: Date)
    requires Valid(a) && Valid(b) && 0 <= a.year <= 9999 < b.year
    ensures Less(Text(a), Text(b)) <==> a.year <= Leading(b.year)
  {
    var x := "-" + (Padded(a.month, 2) + ("-" + Padded(a.day, 2)));
    var y := "-" + (Padded(b.month, 2) + ("-" + Padded(b.day, 2)));
    var rest := LeadingDigits(b.year);
    assert TenTo(4) == 10 * TenTo(3) && TenTo(3) == 1000;
    PaddedOrder(a.year, Leading(b.year), 4, x, rest + y);
    assert Text(b) == Padded(Leading(b.year), 4) + (rest + y);
    assert x[0] == '-' && (rest + y)[0] == rest[0];
  }

  /** The exact condition under which texts compare as dates: a year of four digits, or enough of a longer one. */
  lemma TextFollowsOrderIff(a: Date, b: Date)
    requires Valid(a) && Valid(b) && 0 <= a.year <= 9999
    ensures (Less(Text(a), Text(b)) <==> Before(a, b)) <==> (b.year <= 9999 || a.year <= Leading(b.year))
  {
    if b.year <= 9999 {
      TextFollowsOrder(a, b);
    } else {
      AgainstLongerYear(a, b);
    }
  }

  // ---------------------------------------------------------------- retention of daily files

  function StripPrefix(text: string, prefix: string): Option<string> {
    if prefix <= text then Some(text[|prefix|..]) else None
  }

  function StripSuffix(text: string, suffix: string): Option<string> {
    if |suffix| <= |text| && text[|text| - |suffix|..] == suffix then Some(text[..|text| - |suffix|]) else None
  }

  function DailyFileDate(name: string, prefix: string): Option<string> {
    var remainder := StripPrefix(name, prefix);
    if remainder.None? then None
    else
      var plain := StripSuffix(remainder.value, ".log");
      var date := if plain.Some? then plain else StripSuffix(remainder.value, ".log.gz");
      if date.Some? && DateShaped(date.value) then date else None
  }

  predicate DateShaped(date: string) {
    |date| == 10 && date[4] == '-' && date[7] == '-'
      && forall i :: 0 <= i < 10 ==> '0' <= date[i] <= '9' || date[i] == '-'
  }

  /** Ten characters, hyphens in their places and otherwise digits or hyphens. */
  predicate LooksLikeADate(date: string) {
    |date| == 10 && forall i :: 0 <= i < 10 ==> date[i] == '-' || (i != 4 && i != 7 && '0' <= date[i] <= '9')
  }

  /** Which files a pass looks at at all: the prefix, something that looks like a date, and one of two suffixes. */
  lemma RecognizedIff(name: string, prefix: string, date: string)
    ensures DailyFileDate(name, prefix) == Some(date) <==>
      && LooksLikeADate(date)
      && (name == prefix + (date + ".log") || name == prefix + (date + ".log.gz"))
  {
    if name == prefix + (date + ".log") {
      Unwrapped(prefix, date, ".log");
    } else if name == prefix + (date + ".log.gz") {
      Unwrapped(prefix, date, ".log.gz");
      assert (date + ".log.gz")[|date| + 6] == 'z';
    }
  }

  lemma Unwrapped(prefix: string, date: string, suffix: string)
    ensures StripPrefix(prefix + (date + suffix), prefix) == Some(date + suffix)
    ensures StripSuffix(date + suffix, suffix) == Some(date)
  {
    assert (prefix + (date + suffix))[|prefix|..] == date + suffix;
    assert (date + suffix)[|date|..] == suffix && (date + suffix)[..|date|] == date;
  }

  const I64_LIMIT := 0x8000_0000_0000_0000
  const U64_LIMIT := 0x1_0000_0000_0000_0000

  /** The days that the program's clock can show: whole days in a `u64` of seconds after 1970. */
  predicate OnTheClock(day: int) {
    0 <= day <= (U64_LIMIT - 1) / 86_400
  }

  /** The program's `as i64`. */
  function AsSigned(n: nat): int
    requires n < U64_LIMIT
  {
    if n < I64_LIMIT then n else n - U64_LIMIT
  }

  predicate Fits(n: int) {
    -I64_LIMIT <= n < I64_LIMIT
  }

  /** The arithmetic of `FromUnixDay` stays within 64 bits; what follows these steps is no larger than they are. */
  predicate DayFits(day: int) {
    Fits(day) && Fits(day + 719_468) && Fits(day + 719_468 - 146_096)
  }

  /** What a pass compares with; `Overflow` is the panic of a build that checks its arithmetic. */
  datatype Cutoff = Never | At(date: Date) | Overflow

  /** Where the text of a cutoff comes from. */
  function CutoffDay(activeDay: int, retentionDays: nat): int
    requires retentionDays < U64_LIMIT
  {
    activeDay - AsSigned(if retentionDays == 0 then 0 else retentionDays - 1)
  }

  function CutoffOf(activeDay: int, retentionDays: Option<nat>): (cutoff: Cutoff)
    requires retentionDays.Some? ==> retentionDays.value < U64_LIMIT
    ensures cutoff.At? ==> Valid(cutoff.date)
  {
    if retentionDays.None? then Never
    else
      var day := CutoffDay(activeDay, retentionDays.value);
      DateOfEveryDay(day);
      if DayFits(day) then At(FromUnixDay(day)) else Overflow
  }

  /** Whether a maintenance pass with this cutoff removes the file. */
  predicate Expired(name: string, prefix: string, cutoff: Cutoff)
    requires cutoff.At? ==> Valid(cutoff.date)
  {
    var date := DailyFileDate(name, prefix);
    date.Some? && cutoff.At? && Less(date.value, Text(cutoff.date))
  }

  /** Whether the documentation wants the file gone: older than the last `days` days, today included. */
  predicate Outdated(day: int, activeDay: int, days: nat) {
    day <= activeDay - if days == 0 then 1 else days
  }

  function DailyName(prefix: string, d: Date, gzip: bool): string
    requires Valid(d)
  {
    prefix + (Text(d) + if gzip then ".log.gz" else ".log")
  }

  lemma {:induction false} PaddedShape(n: nat, width: nat)
    requires 0 < width && n < TenTo(width)
    ensures |Padded(n, width)| == width
    ensures forall i :: 0 <= i < width ==> '0' <= Padded(n, width)[i] <= '9'
    decreases width
  {
    if width > 1 {
      PaddedShape(n / 10, width - 1);
    }
  }

  lemma TextShape(d: Date)
    requires Valid(d) && 0 <= d.year <= 9999
    ensures DateShaped(Text(d))
  {
    assert TenTo(4) == 10 * TenTo(3) && TenTo(3) == 1000 && TenTo(2) == 100;
    PaddedShape(d.year, 4);
    PaddedShape(d.month, 2);
    PaddedShape(d.day, 2);
  }

  lemma TextLength(d: Date)
    requires Valid(d) && 9999 < d.year
    ensures |Text(d)| > 10
  {
    var rest := LeadingDigits(d.year);
    assert TenTo(4) == 10 * TenTo(3) && TenTo(3) == 1000 && TenTo(2) == 100;
    PaddedShape(Leading(d.year), 4);
    PaddedShape(d.month, 2);
    PaddedShape(d.day, 2);
  }

  /** A date is recovered from the name of its file if its year has four digits; no other file is recognized. */
  lemma DailyNameDate(prefix: string, d: Date, gzip: bool)
    requires Valid(d) && 0 <= d.year
    ensures DailyFileDate(DailyName(prefix, d, gzip), prefix) == if d.year <= 9999 then Some(Text(d)) else None
  {
    var text := Text(d);
    var suffix := if gzip then ".log.gz" else ".log";
    if d.year <= 9999 {
      TextShape(d);
    } else {
      TextLength(d);
    }
    assert (prefix + (text + suffix))[|prefix|..] == text + suffix;
    assert (text + suffix)[|text|..] == suffix && (text + suffix)[..|text|] == text;
    if gzip {
      assert (text + suffix)[|text| + 6] == 'z';
    }
  }

  /** Which files a pass removes, for every file and every cutoff. */
  lemma ExpiredExactly(prefix: string, day: int, d: Date, gzip: bool, cutoffDay: int, cutoff: Date)
    requires d == FromUnixDay(day) && Valid(d) && 0 <= d.year
    requires cutoff == FromUnixDay(cutoffDay) && Valid(cutoff)
    ensures Expired(DailyName(prefix, d, gzip), prefix, At(cutoff)) <==>
      d.year <= 9999 && if cutoff.year <= 9999 then day < cutoffDay else d.year <= Leading(cutoff.year)
  {
    DailyNameDate(prefix, d, gzip);
    DatesFollowDays(day, cutoffDay);
    if d.year <= 9999 && cutoff.year <= 9999 {
      TextFollowsOrder(d, cutoff);
    } else if d.year <= 9999 {
      AgainstLongerYear(d, cutoff);
    }
  }

  lemma CutoffParts(activeDay: int, days: nat) returns (cutoffDay: int, cutoff: Date)
    requires days < U64_LIMIT && CutoffOf(activeDay, Some(days)).At?
    ensures cutoffDay == CutoffDay(activeDay, days) && cutoff == FromUnixDay(cutoffDay) && Valid(cutoff)
    ensures CutoffOf(activeDay, Some(days)) == At(cutoff)
  {
    cutoffDay := CutoffDay(activeDay, days);
    cutoff := FromUnixDay(cutoffDay);
  }

  lemma YearsFollowDays(a: int, b: int)
    requires a <= b
    ensures FromUnixDay(a).year <= FromUnixDay(b).year
  {
    DatesFollowDays(b, a);
  }

  lemma ExpiredByDay(prefix: string, day: int, d: Date, gzip: bool, cutoffDay: int, cutoff: Date)
    requires d == FromUnixDay(day) && Valid(d) && 0 <= d.year
    requires cutoff == FromUnixDay(cutoffDay) && Valid(cutoff) && cutoff.year <= 9999
    ensures Expired(DailyName(prefix, d, gzip), prefix, At(cutoff)) <==> day < cutoffDay
  {
    if day < cutoffDay {
      YearsFollowDays(day, cutoffDay);
    }
    ExpiredExactly(prefix, day, d, gzip, cutoffDay, cutoff);
  }

  /**
   * A maintenance pass removes exactly the daily files older than the last `days` days, today
   * included (a retention of zero days counts as one), while years have four digits and the
   * setting fits the cast.
   */
  lemma RetentionKeepsTheLastDays(prefix: string, day: int, d: Date, gzip: bool, activeDay: int, days: nat)
    requires d == FromUnixDay(day) && Valid(d) && 0 <= d.year && FromUnixDay(activeDay).year <= 9999
    requires days <= I64_LIMIT && CutoffOf(activeDay, Some(days)).At?
    ensures Expired(DailyName(prefix, d, gzip), prefix, CutoffOf(activeDay, Some(days)))
       <==> Outdated(day, activeDay, days)
  {
    var cutoffDay, cutoff := CutoffParts(activeDay, days);
    YearsFollowDays(cutoffDay, activeDay);
    ExpiredByDay(prefix, day, d, gzip, cutoffDay, cutoff);
  }

  /** One file: the pass decides it as documented if and only if the text of the cutoff allows it. */
  lemma DecidedAsDocumentedIff(prefix: string, day: int, d: Date, gzip: bool, activeDay: int, days: nat)
    requires d == FromUnixDay(day) && Valid(d) && 0 <= d.year <= 9999
    requires days <= I64_LIMIT && CutoffOf(activeDay, Some(days)).At?
    ensures var cutoff := CutoffOf(activeDay, Some(days));
      (Expired(DailyName(prefix, d, gzip), prefix, cutoff) <==> Outdated(day, activeDay, days))
      <==> (cutoff.date.year <= 9999 || d.year <= Leading(cutoff.date.year))
  {
    var cutoffDay, cutoff := CutoffParts(activeDay, days);
    if cutoffDay <= day {
      YearsFollowDays(cutoffDay, day);
    }
    ExpiredExactly(prefix, day, d, gzip, cutoffDay, cutoff);
  }

  /** Which settings overflow: a band just above 2^63, as wide as the number of the day. */
  lemma CutoffOverflowsIff(activeDay: int, days: nat)
    requires OnTheClock(activeDay) && days < U64_LIMIT
    ensures CutoffOf(activeDay, Some(days)).Overflow? <==> I64_LIMIT < days <= I64_LIMIT + activeDay + 719_469
  {
  }

  /** The pass completes, and decides every file that the program can have written as documented. */
  ghost predicate KeepsTheLastDays(prefix: string, activeDay: int, days: nat)
    requires days < U64_LIMIT
  {
    var cutoff := CutoffOf(activeDay, Some(days));
    && cutoff.At?
    && forall day, gzip {:trigger FileExpired(prefix, day, gzip, cutoff)} ::
      OnTheClock(day) ==> (FileExpired(prefix, day, gzip, cutoff) <==> Outdated(day, activeDay, days))
  }

  /** The daily file of this day is removed. */
  predicate FileExpired(prefix: string, day: int, gzip: bool, cutoff: Cutoff)
    requires cutoff.At? ==> Valid(cutoff.date)
  {
    DateOfEveryDay(day);
    Expired(DailyName(prefix, FromUnixDay(day), gzip), prefix, cutoff)
  }

  lemma ClockStartsIn1970(day: int)
    requires 0 <= day
    ensures FromUnixDay(day).year >= 1970
  {
    EpochIsDayZero();
    DatesFollowDays(0, day);
  }

  lemma FileExpiredExactly(prefix: string, day: int, gzip: bool, cutoffDay: int)
    requires OnTheClock(day) && Valid(FromUnixDay(cutoffDay))
    ensures FileExpired(prefix, day, gzip, At(FromUnixDay(cutoffDay))) <==>
      && FromUnixDay(day).year <= 9999
      && if FromUnixDay(cutoffDay).year <= 9999 then day < cutoffDay
         else FromUnixDay(day).year <= Leading(FromUnixDay(cutoffDay).year)
  {
    ClockStartsIn1970(day);
    DateOfEveryDay(day);
    ExpiredExactly(prefix, day, FromUnixDay(day), gzip, cutoffDay, FromUnixDay(cutoffDay));
  }

  /** A year of five digits, and what the clock says of days around it. */
  lemma LastDayOfNines()
    ensures DayNumber(Date(9999, 12, 31)) == 2_932_896
    ensures FromUnixDay(2_932_896) == Date(9999, 12, 31) && FromUnixDay(2_932_897) == Date(10_000, 1, 1)
  {
    MonthStarts(9999);
    DayOfEveryDate(Date(9999, 12, 31));
    NextDayIsSuccessor(2_932_896);
  }

  lemma YearUpToNines(day: int)
    requires day <= 2_932_896
    ensures FromUnixDay(day).year <= 9999
  {
    LastDayOfNines();
    YearsFollowDays(day, 2_932_896);
  }

  /** In the year 10000 a pass leaves yesterday's file, and every file of the year before, although one day is kept. */
  lemma YearTenThousandKeepsOldFiles(prefix: string, gzip: bool)
    ensures Outdated(2_932_896, 2_932_897, 1)
    ensures !FileExpired(prefix, 2_932_896, gzip, CutoffOf(2_932_897, Some(1)))
  {
    LastDayOfNines();
    FileExpiredExactly(prefix, 2_932_896, gzip, 2_932_897);
  }

  /** The largest setting, meant to keep everything: the cast makes it -2, and the pass removes today's file. */
  lemma KeepEverythingRemovesToday(prefix: string, activeDay: int, gzip: bool)
    requires 0 <= activeDay <= 2_932_894
    ensures !Outdated(activeDay, activeDay, U64_LIMIT - 1)
    ensures FileExpired(prefix, activeDay, gzip, CutoffOf(activeDay, Some(U64_LIMIT - 1)))
  {
    var cutoffDay, cutoff := CutoffParts(activeDay, U64_LIMIT - 1);
    YearUpToNines(activeDay);
    YearUpToNines(cutoffDay);
    FileExpiredExactly(prefix, activeDay, gzip, cutoffDay);
  }

  /** What a setting has to meet: either the cast leaves it alone and the cutoff has a year of four digits... */
  predicate SoundCutoff(days: nat, year: int) {
    days <= I64_LIMIT && year <= 9999
  }

  /** ...or it is so large that the pass compares with a far future that sorts before all files. */
  predicate HarmlessCutoff(days: nat, year: int) {
    I64_LIMIT < days && 9999 < year && Leading(year) < 1970
  }

  lemma SoundCutoffKeeps(prefix: string, activeDay: int, days: nat, day: int, gzip: bool)
    requires OnTheClock(activeDay) && OnTheClock(day) && days < U64_LIMIT && DayFits(CutoffDay(activeDay, days))
    requires var year := FromUnixDay(CutoffDay(activeDay, days)).year;
      SoundCutoff(days, year) || HarmlessCutoff(days, year)
    ensures FileExpired(prefix, day, gzip, CutoffOf(activeDay, Some(days))) <==> Outdated(day, activeDay, days)
  {
    var cutoffDay := CutoffDay(activeDay, days);
    DateOfEveryDay(cutoffDay);
    FileExpiredExactly(prefix, day, gzip, cutoffDay);
    DatesFollowDays(cutoffDay, day);
    ClockStartsIn1970(day);
  }

  /** The first day of 1970 tells on a setting above 2^63, the turn of the year 10000 on a cutoff after it. */
  lemma OtherCutoffsFail(prefix: string, activeDay: int, days: nat) returns (day: int)
    requires OnTheClock(activeDay) && days < U64_LIMIT && DayFits(CutoffDay(activeDay, days))
    requires var year := FromUnixDay(CutoffDay(activeDay, days)).year;
      !SoundCutoff(days, year) && !HarmlessCutoff(days, year)
    ensures OnTheClock(day)
    ensures FileExpired(prefix, day, false, CutoffOf(activeDay, Some(days))) != Outdated(day, activeDay, days)
  {
    var cutoffDay := CutoffDay(activeDay, days);
    var year := FromUnixDay(cutoffDay).year;
    DateOfEveryDay(cutoffDay);
    LastDayOfNines();
    EpochIsDayZero();
    day := if I64_LIMIT < days then 0 else if year == 10_000 then 2_932_896 else 2_932_897;
    DatesFollowDays(day, cutoffDay);
    FileExpiredExactly(prefix, day, false, cutoffDay);
  }

  /** The exact settings under which a pass keeps the last `days` days of the program's files, on every day. */
  lemma RetentionIsRightIff(prefix: string, activeDay: int, days: nat)
    requires OnTheClock(activeDay) && days < U64_LIMIT
    ensures KeepsTheLastDays(prefix, activeDay, days) <==>
      && !(I64_LIMIT < days <= I64_LIMIT + activeDay + 719_469)
      && var year := FromUnixDay(CutoffDay(activeDay, days)).year;
         SoundCutoff(days, year) || HarmlessCutoff(days, year)
  {
    CutoffOverflowsIff(activeDay, days);
    var cutoff, year := CutoffOf(activeDay, Some(days)), FromUnixDay(CutoffDay(activeDay, days)).year;
    if cutoff.At? {
      if SoundCutoff(days, year) || HarmlessCutoff(days, year) {
        forall day, gzip | OnTheClock(day)
          ensures FileExpired(prefix, day, gzip, cutoff) <==> Outdated(day, activeDay, days)
        {
          SoundCutoffKeeps(prefix, activeDay, days, day, gzip);
        }
      } else {
        var day := OtherCutoffsFail(prefix, activeDay, days);
        assert FileExpired(prefix, day, false, cutoff) != Outdated(day, activeDay, days);
      }
    }
  }
}
