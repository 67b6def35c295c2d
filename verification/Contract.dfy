/** The proleptic Gregorian calendar, numbered in days from 1970-01-01. */
module Calendar {

  datatype Date = Date(year: int, month: int, day: int)

  predicate IsLeap(y: int)
  {
    y % 4 == 0 && (y % 100 != 0 || y % 400 == 0)
  }

  function MonthLength(y: int, m: int): nat
  {
    if m == 2 then (if IsLeap(y) then 29 else 28)
    else if m == 4 || m == 6 || m == 9 || m == 11 then 30
    else 31
  }

  predicate ValidDate(d: Date)
  {
    1 <= d.month <= 12 && 1 <= d.day <= MonthLength(d.year, d.month)
  }

  /** Leap years up to and including y, counted from year 1. */
  function LeapsThrough(y: int): int
  {
    y / 4 - y / 100 + y / 400
  }

  function YearStart(y: int): int
  {
    365 * (y - 1970) + LeapsThrough(y - 1) - LeapsThrough(1969)
  }

  function MonthStart(y: int, m: int): int
    requires 1 <= m <= 12
  {
    YearStart(y)
    + [0, 31, 59, 90, 120, 151, 181, 212, 243, 273, 304, 334][m - 1]
    + (if m > 2 && IsLeap(y) then 1 else 0)
  }

  function DayNumber(d: Date): int
    requires ValidDate(d)
  {
    MonthStart(d.year, d.month) + d.day - 1
  }

  /** 0 is Sunday, 5 is Friday; day 0 was a Thursday. */
  function Weekday(day: int): (w: nat)
    ensures w < 7
  {
    (day + 4) % 7
  }

  function NextDate(d: Date): Date
  {
    if d.day < MonthLength(d.year, d.month) then d.(day := d.day + 1)
    else if d.month < 12 then Date(d.year, d.month + 1, 1)
    else Date(d.year + 1, 1, 1)
  }

  function PreviousDate(d: Date): Date
  {
    if d.day > 1 then d.(day := d.day - 1)
    else if d.month > 1 then Date(d.year, d.month - 1, MonthLength(d.year, d.month - 1))
    else Date(d.year - 1, 12, 31)
  }

  predicate Before(a: Date, b: Date)
  {
    a.year < b.year
    || (a.year == b.year && a.month < b.month)
    || (a.year == b.year && a.month == b.month && a.day < b.day)
  }

  lemma DivStep(y: int, q: int)
    requires q == 4 || q == 100 || q == 400
    ensures y / q == (y - 1) / q + (if y % q == 0 then 1 else 0)
  {
  }

  lemma HundredTimes(y: int, t: int)
    requires y == 100 * t
    ensures y % 100 == 0
  {
  }

  lemma FourTimes(y: int, t: int)
    requires y == 4 * t
    ensures y % 4 == 0
  {
  }

  lemma Multiples(y: int)
    ensures y % 400 == 0 ==> y % 100 == 0
    ensures y % 100 == 0 ==> y % 4 == 0
  {
    if y % 400 == 0 {
      HundredTimes(y, 4 * (y / 400));
    }
    if y % 100 == 0 {
      FourTimes(y, 25 * (y / 100));
    }
  }

  lemma LeapStep(y: int)
    ensures LeapsThrough(y) == LeapsThrough(y - 1) + (if IsLeap(y) then 1 else 0)
    ensures YearStart(y + 1) == YearStart(y) + (if IsLeap(y) then 366 else 365)
  {
    DivStep(y, 4);
    DivStep(y, 100);
    DivStep(y, 400);
    Multiples(y);
  }

  lemma MonthStep(y: int, m: int)
    requires 1 <= m <= 12
    ensures MonthStart(y, m) + MonthLength(y, m) == if m < 12 then MonthStart(y, m + 1) else MonthStart(y + 1, 1)
  {
    LeapStep(y);
  }

  /** The numbering counts days: it starts at 0 on 1970-01-01 and each next
      date has the next number. */
  lemma DaysAreConsecutive(d: Date)
    requires ValidDate(d)
    ensures DayNumber(Date(1970, 1, 1)) == 0
    ensures ValidDate(NextDate(d)) && DayNumber(NextDate(d)) == DayNumber(d) + 1
  {
    MonthStep(d.year, d.month);
  }

  lemma PreviousDayNumber(d: Date)
    requires ValidDate(d)
    ensures ValidDate(PreviousDate(d)) && DayNumber(PreviousDate(d)) == DayNumber(d) - 1
  {
    if d.month > 1 {
      MonthStep(d.year, d.month - 1);
    } else {
      MonthStep(d.year - 1, 12);
    }
  }

  /** The date of a day number, as floor<days> and year_month_day give it. */
  function DateOf(day: int): (d: Date)
    ensures ValidDate(d) && DayNumber(d) == day
    decreases if day < 0 then -day else day
  {
    if day == 0 then Date(1970, 1, 1)
    else if day > 0 then
      DaysAreConsecutive(DateOf(day - 1));
      NextDate(DateOf(day - 1))
    else
      PreviousDayNumber(DateOf(day + 1));
      PreviousDate(DateOf(day + 1))
  }

  lemma {:induction false} YearsAscend(a: int, b: int)
    requires a <= b
    ensures YearStart(a) + 365 * (b - a) <= YearStart(b)
    decreases b - a
  {
    if a < b {
      LeapStep(b - 1);
      YearsAscend(a, b - 1);
    }
  }

  lemma {:induction false} MonthsAscend(y: int, a: int, b: int)
    requires 1 <= a < b <= 12
    ensures MonthStart(y, a) + MonthLength(y, a) <= MonthStart(y, b)
    decreases b - a
  {
    MonthStep(y, a);
    if a + 1 < b {
      MonthsAscend(y, a + 1, b);
    }
  }

  lemma BeforeHasSmallerNumber(a: Date, b: Date)
    requires ValidDate(a) && ValidDate(b) && Before(a, b)
    ensures DayNumber(a) < DayNumber(b)
  {
    if a.year < b.year {
      LeapStep(a.year);
      YearsAscend(a.year + 1, b.year);
    } else if a.month < b.month {
      MonthsAscend(a.year, a.month, b.month);
    }
  }

  /** Calendar order is number order, so a day number names one date. */
  lemma CalendarOrder(a: Date, b: Date)
    requires ValidDate(a) && ValidDate(b)
    ensures Before(a, b) <==> DayNumber(a) < DayNumber(b)
    ensures a == b <==> DayNumber(a) == DayNumber(b)
  {
    if Before(a, b) {
      BeforeHasSmallerNumber(a, b);
    } else if Before(b, a) {
      BeforeHasSmallerNumber(b, a);
    }
  }
}

/** Choice and encoding of the quarterly FORTS contract. */
module Contract {
  import opened Common
  import opened Calendar

  datatype Contract = Contract(year: int, month: int)

  predicate IsQuarterly(m: int)
  {
    m == 3 || m == 6 || m == 9 || m == 12
  }

  /** Position in the sequence of all quarterly contracts. */
  function Index(c: Contract): int
    requires IsQuarterly(c.month)
  {
    4 * c.year + c.month / 3 - 1
  }

  function ThirdFriday(y: int, m: int): int
    requires 1 <= m <= 12
  {
    var w := Weekday(MonthStart(y, m));
    1 + (if w <= 5 then 5 - w else 12 - w) + 14
  }

  function NextQuarterlyMonth(m: int): int
  {
    if m < 3 then 3 else if m < 6 then 6 else if m < 9 then 9 else if m < 12 then 12 else 3
  }

  function NextQuarterly(c: Contract): Contract
  {
    var next := NextQuarterlyMonth(c.month);
    Contract(if next <= c.month then c.year + 1 else c.year, next)
  }

  function Nearest(today: Date, rolloverDays: int): (c: Contract)
    requires ValidDate(today)
    ensures IsQuarterly(c.month)
  {
    var here := Contract(today.year, today.month);
    var c := if IsQuarterly(here.month) then here else NextQuarterly(here);
    if c == here && today.day >= ThirdFriday(c.year, c.month) - rolloverDays then NextQuarterly(c) else c
  }

  // ---- Third Friday ------------------------------------------------------

  /** Day `d` of the month is a Friday. */
  predicate Friday(y: int, m: int, d: int)
    requires 1 <= m <= 12
  {
    Weekday(MonthStart(y, m) + d - 1) == 5
  }

  /** The third Friday is a Friday of that month with exactly two Fridays
      before it. */
  lemma ThirdFridayIsTheThird(y: int, m: int)
    requires 1 <= m <= 12
    ensures 15 <= ThirdFriday(y, m) <= 21
    ensures ValidDate(Date(y, m, ThirdFriday(y, m))) && Friday(y, m, ThirdFriday(y, m))
    ensures |set d | 1 <= d < ThirdFriday(y, m) && Friday(y, m, d)| == 2
  {
    var f := ThirdFriday(y, m);
    FridayFromMonthStart(MonthStart(y, m));
    var earlier := set d | 1 <= d < f && Friday(y, m, d);
    forall d | 1 <= d < f
      ensures Friday(y, m, d) <==> d == f - 7 || d == f - 14
    {
      FridaysAreWeeksApart(MonthStart(y, m) + f - 1, MonthStart(y, m) + d - 1);
    }
    assert earlier == {f - 14, f - 7};
  }

  lemma FridayFromMonthStart(start: int)
    ensures var w := Weekday(start);
            var f := 1 + (if w <= 5 then 5 - w else 12 - w) + 14;
            15 <= f <= 21 && Weekday(start + f - 1) == 5
  {
  }

  lemma FridaysAreWeeksApart(friday: int, day: int)
    requires Weekday(friday) == 5 && friday - 21 < day < friday
    ensures Weekday(day) == 5 <==> day == friday - 7 || day == friday - 14
  {
  }

  // ---- Earliest contract not yet rolled ------------------------------------

  /** Last trading day of a contract. */
  function Expiry(c: Contract): int
    requires 1 <= c.month <= 12
  {
    MonthStart(c.year, c.month) + ThirdFriday(c.year, c.month) - 1
  }

  /** The roll date, so many days before expiry, is still ahead. */
  predicate NotRolled(c: Contract, today: Date, rolloverDays: int)
    requires 1 <= c.month <= 12 && ValidDate(today)
  {
    Expiry(c) - rolloverDays > DayNumber(today)
  }

  ghost predicate IsEarliestNotRolled(c: Contract, today: Date, rolloverDays: int)
    requires ValidDate(today)
  {
    && IsQuarterly(c.month)
    && NotRolled(c, today, rolloverDays)
    && forall e: Contract | IsQuarterly(e.month) && Index(e) < Index(c) :: !NotRolled(e, today, rolloverDays)
  }

  /** A date in a later month comes at least ten days after the third Friday. */
  lemma ExpiryBeforeLaterMonths(c: Contract, today: Date)
    requires IsQuarterly(c.month) && ValidDate(today)
    requires c.year < today.year || (c.year == today.year && c.month < today.month)
    ensures Expiry(c) + 10 <= DayNumber(today)
  {
    var last := Date(c.year, c.month, MonthLength(c.year, c.month));
    ThirdFridayIsTheThird(c.year, c.month);
    CalendarOrder(last, today);
  }

  /** A date in an earlier month comes more than fourteen days before it. */
  lemma ExpiryAfterEarlierMonths(c: Contract, today: Date)
    requires IsQuarterly(c.month) && ValidDate(today)
    requires today.year < c.year || (today.year == c.year && today.month < c.month)
    ensures DayNumber(today) < Expiry(c) - 14
  {
    ThirdFridayIsTheThird(c.year, c.month);
    CalendarOrder(today, Date(c.year, c.month, 1));
  }

  lemma PicksEarliest(today: Date, rolloverDays: int)
    requires ValidDate(today) && -10 <= rolloverDays <= 14
    ensures IsEarliestNotRolled(Nearest(today, rolloverDays), today, rolloverDays)
  {
    var c := Nearest(today, rolloverDays);
    if c != Contract(today.year, today.month) {
      ExpiryAfterEarlierMonths(c, today);
    }
    forall e: Contract | IsQuarterly(e.month) && Index(e) < Index(c)
      ensures !NotRolled(e, today, rolloverDays)
    {
      if e != Contract(today.year, today.month) {
        assert e.year < today.year || (e.year == today.year && e.month < today.month);
        ExpiryBeforeLaterMonths(e, today);
      }
    }
  }

  /** The choice is the earliest contract whose roll date is still ahead, on
      every date, exactly when the configured lead is from -10 to 14 days. */
  lemma NearestIsEarliestExactly(rolloverDays: int)
    ensures (forall today: Date | ValidDate(today) ::
               IsEarliestNotRolled(Nearest(today, rolloverDays), today, rolloverDays))
            <==> -10 <= rolloverDays <= 14
  {
    if -10 <= rolloverDays <= 14 {
      forall today: Date | ValidDate(today)
        ensures IsEarliestNotRolled(Nearest(today, rolloverDays), today, rolloverDays)
      {
        PicksEarliest(today, rolloverDays);
      }
    } else if rolloverDays > 14 {
      LongLeadMissesTheRoll(rolloverDays);
    } else {
      LateLeadRollsEarly(rolloverDays);
    }
  }

  /** March 2024 expires on the 15th: a lead of 15 days or more rolls in
      February, when only the current month is looked at. */
  lemma LongLeadMissesTheRoll(rolloverDays: int)
    requires rolloverDays > 14
    ensures ValidDate(Date(2024, 2, 29))
    ensures !IsEarliestNotRolled(Nearest(Date(2024, 2, 29), rolloverDays), Date(2024, 2, 29), rolloverDays)
  {
    assert ThirdFriday(2024, 3) == 15;
    assert Nearest(Date(2024, 2, 29), rolloverDays) == Contract(2024, 3);
  }

  /** June 2024 expires on the 21st: rolling 11 days after that falls in July. */
  lemma LateLeadRollsEarly(rolloverDays: int)
    requires rolloverDays < -10
    ensures ValidDate(Date(2024, 7, 1))
    ensures !IsEarliestNotRolled(Nearest(Date(2024, 7, 1), rolloverDays), Date(2024, 7, 1), rolloverDays)
  {
    assert ThirdFriday(2024, 6) == 21;
    assert Nearest(Date(2024, 7, 1), rolloverDays) == Contract(2024, 9);
    assert Index(Contract(2024, 6)) < Index(Contract(2024, 9));
    assert NotRolled(Contract(2024, 6), Date(2024, 7, 1), rolloverDays);
  }

  /** As time advances the chosen contract never moves back, for any lead. */
  lemma NearestNeverMovesBack(a: Date, b: Date, rolloverDays: int)
    requires ValidDate(a) && ValidDate(b) && DayNumber(a) <= DayNumber(b)
    ensures Index(Nearest(a, rolloverDays)) <= Index(Nearest(b, rolloverDays))
  {
    CalendarOrder(a, b);
    NearestStaysClose(a, rolloverDays);
    NearestStaysClose(b, rolloverDays);
  }

  /** The choice is the current quarter's contract or the next one. */
  lemma NearestStaysClose(d: Date, rolloverDays: int)
    requires ValidDate(d)
    ensures var quarter := 4 * d.year + (d.month + 2) / 3 - 1;
            var i := Index(Nearest(d, rolloverDays));
            && (!IsQuarterly(d.month) ==> i == quarter)
            && (IsQuarterly(d.month) ==>
                  i == quarter + (if d.day >= ThirdFriday(d.year, d.month) - rolloverDays then 1 else 0))
  {
  }

  // ---- Symbols -------------------------------------------------------------

  function QuarterLetter(m: int): char
  {
    match m
    case 3 => 'H'
    case 6 => 'M'
    case 9 => 'U'
    case 12 => 'Z'
    case _ => 'X'
  }

  /** Remainder by ten with the sign of the dividend. */
  function LastDigit(y: int): int
  {
    if y >= 0 then y % 10 else -((-y) % 10)
  }

  function Digit(n: nat): char
    requires n < 10
  {
    ('0' as int + n) as char
  }

  function DigitString(n: int): string
    requires -10 < n < 10
  {
    if n < 0 then ['-', Digit(-n)] else [Digit(n)]
  }

  /** The letter-plus-digit code of a contract. */
  function Code(c: Contract): string
  {
    [QuarterLetter(c.month)] + DigitString(LastDigit(c.year))
  }

  /** Two contracts share a code exactly when a multiple of ten years apart,
      40 contracts, separates them (and, before year 1, the years have the
      same sign or end in zero). */
  lemma CodesCollideEveryTenYears(a: Contract, b: Contract)
    requires IsQuarterly(a.month) && IsQuarterly(b.month)
    ensures Code(a) == Code(b) ==> (Index(a) - Index(b)) % 40 == 0
    ensures a.year >= 0 && b.year >= 0 && (Index(a) - Index(b)) % 40 == 0 ==> Code(a) == Code(b)
  {
    if Code(a) == Code(b) {
      SameSuffix(a, b);
      SameDigit(a.year, b.year);
    } else if (Index(a) - Index(b)) % 40 == 0 {
      SameIndexMod40(a.year, b.year, a.month / 3, b.month / 3);
    }
  }

  lemma TenTimes(x: int) returns (p: int)
    ensures x == 10 * p + LastDigit(x)
  {
    p := if x >= 0 then x / 10 else -((-x) / 10);
  }

  lemma MultipleOf40(d: int, p: int)
    requires d == 40 * p
    ensures d % 40 == 0
  {
  }

  lemma SameDigit(x: int, y: int)
    requires LastDigit(x) == LastDigit(y)
    ensures (4 * x - 4 * y) % 40 == 0
  {
    var p := TenTimes(x);
    var q := TenTimes(y);
    MultipleOf40(4 * x - 4 * y, p - q);
  }

  lemma SameIndexMod40(x: int, y: int, p: int, q: int)
    requires 1 <= p <= 4 && 1 <= q <= 4 && (4 * x + p - 4 * y - q) % 40 == 0
    ensures p == q && x % 10 == y % 10
  {
    var d := (4 * x + p - 4 * y - q) / 40;
    assert p - q == 4 * (10 * d - x + y);
    assert x == y + 10 * d;
  }

  lemma SameSuffix(a: Contract, b: Contract)
    requires IsQuarterly(a.month) && IsQuarterly(b.month) && Code(a) == Code(b)
    ensures a.month == b.month && LastDigit(a.year) == LastDigit(b.year)
  {
    var x, y := LastDigit(a.year), LastDigit(b.year);
    assert Code(a)[0] == Code(b)[0] && |Code(a)| == |Code(b)|;
    assert DigitString(x) == Code(a)[1..] == Code(b)[1..] == DigitString(y);
    if x < 0 {
      assert DigitString(x)[1] == DigitString(y)[1];
    } else {
      assert DigitString(x)[0] == DigitString(y)[0];
    }
  }

  /** Comparing security codes, as the rollover watchdog does, tells apart any
      two of 40 consecutive contracts. */
  lemma RolloverIsDetected(ticker: string, a: Contract, b: Contract)
    requires IsQuarterly(a.month) && IsQuarterly(b.month) && -40 < Index(a) - Index(b) < 40
    ensures ticker + Code(a) == ticker + Code(b) <==> a == b
  {
    if ticker + Code(a) == ticker + Code(b) {
      assert Code(a) == (ticker + Code(a))[|ticker|..] == (ticker + Code(b))[|ticker|..] == Code(b);
      CodesCollideEveryTenYears(a, b);
      assert Index(a) == Index(b);
    }
  }

  /** The expiry day read back from a code, 0 if it cannot be read; the year is
      taken from 2020 to 2029. */
  function ExpiryDay(code: string): int
  {
    if |code| < 2 then 0
    else
      var y := 2020 + (code[|code| - 1] as int - '0' as int);
      match code[|code| - 2]
      case 'H' => ThirdFriday(y, 3)
      case 'M' => ThirdFriday(y, 6)
      case 'U' => ThirdFriday(y, 9)
      case 'Z' => ThirdFriday(y, 12)
      case _ => 0
  }

  /** A month letter and a digit read as the third Friday of that month in 2020-2029;
      any other letter as none. */
  lemma LettersRead(ticker: string, letter: char, digit: nat)
    requires digit < 10
    ensures ExpiryDay(ticker + [letter, Digit(digit)]) ==
            if letter in "HMUZ" then
              ThirdFriday(2020 + digit, if letter == 'H' then 3 else if letter == 'M' then 6
                                        else if letter == 'U' then 9 else 12)
            else 0
  {
    var code := ticker + [letter, Digit(digit)];
    assert code[|code| - 1] == Digit(digit) && code[|code| - 2] == letter;
  }

  /** Days, beyond whole weeks, by which a year's March to December start later
      in the week than those of an earlier year. */
  function WeekdayShift(from: int, to: int): int
  {
    (to - from + LeapsThrough(to) - LeapsThrough(from)) % 7
  }

  /** Reading a generated symbol gives back its third Friday, in every quarter of
      a year alike, exactly when the years and leap years between it and the year
      in 2020-2029 with the same last digit add up to whole weeks; in that decade
      always. */
  lemma ExpiryDayReadsBack(ticker: string, c: Contract)
    requires IsQuarterly(c.month) && c.year >= 0
    ensures ExpiryDay(ticker + Code(c)) == ThirdFriday(c.year, c.month) <==>
            WeekdayShift(2020 + c.year % 10, c.year) == 0
    ensures 2020 <= c.year <= 2029 ==> ExpiryDay(ticker + Code(c)) == ThirdFriday(c.year, c.month)
  {
    var code := ticker + Code(c);
    assert code[|code| - 1] == Digit(c.year % 10) && code[|code| - 2] == QuarterLetter(c.month);
    SameThirdFriday(c.year, 2020 + c.year % 10, c.month);
    SameWeekdayExactly(2020 + c.year % 10, c.year, c.month);
    DecadeYear(c.year);
  }

  lemma SameThirdFriday(y: int, z: int, m: int)
    requires 1 <= m <= 12
    ensures ThirdFriday(y, m) == ThirdFriday(z, m) <==> Weekday(MonthStart(y, m)) == Weekday(MonthStart(z, m))
  {
  }

  lemma MonthStartByYear(y: int, m: int)
    requires 3 <= m <= 12
    ensures MonthStart(y, m) == 365 * (y - 1970) + LeapsThrough(y) + (MonthStart(1970, m) - LeapsThrough(1970))
  {
    LeapStep(y);
    LeapStep(1970);
  }

  lemma WholeWeeks(a: int, b: int, d: int, weeks: int)
    requires b - a == 7 * weeks + d
    ensures Weekday(a) == Weekday(b) <==> d % 7 == 0
  {
    var q, r := d / 7, d % 7;
    assert b + 4 == 7 * (weeks + q) + (a + 4 + r);
    assert (b + 4) % 7 == (a + 4 + r) % 7;
  }

  lemma SameWeekdayExactly(y: int, z: int, m: int)
    requires 3 <= m <= 12
    ensures Weekday(MonthStart(y, m)) == Weekday(MonthStart(z, m)) <==> WeekdayShift(y, z) == 0
  {
    MonthStartByYear(y, m);
    MonthStartByYear(z, m);
    WholeWeeks(MonthStart(y, m), MonthStart(z, m), z - y + LeapsThrough(z) - LeapsThrough(y), 52 * (z - y));
  }

  lemma DecadeYear(y: int)
    ensures 2020 <= y <= 2029 ==> 2020 + y % 10 == y
  {
  }

  /** The first contract past that decade is read back wrongly. */
  lemma ExpiryDayWrongIn2030()
    ensures ExpiryDay("Si" + Code(Contract(2030, 3))) == 20 && ThirdFriday(2030, 3) == 15
  {
    var c := Contract(2030, 3);
    var code := "Si" + Code(c);
    assert code[|code| - 1] == '0' && code[|code| - 2] == 'H';
  }

  /** The security code names the contract: the ticker, H, M, U or Z for March, June,
      September or December, and the last digit of the year. */
  ghost predicate Names(code: string, ticker: string, c: Contract)
  {
    && (c.month == 3 || c.month == 6 || c.month == 9 || c.month == 12)
    && |code| >= |ticker| + 2 && code[..|ticker|] == ticker
    && code[|ticker|] == (if c.month == 3 then 'H' else if c.month == 6 then 'M' else if c.month == 9 then 'U' else 'Z')
    && (c.year >= 0 ==> |code| == |ticker| + 2 && code[|ticker| + 1] as int == '0' as int + c.year % 10)
  }

  lemma CodeNames(ticker: string, c: Contract)
    requires IsQuarterly(c.month)
    ensures Names(ticker + Code(c), ticker, c)
  {
    var code := ticker + Code(c);
    assert code[|ticker|] == Code(c)[0] && code[|ticker| + 1] == Code(c)[1];
  }

  const TICKS_PER_DAY := 86_400_000_000_000

  /** nearest_contract at a clock reading in nanoseconds since the epoch. */
  method NearestContract(ticker: string, rolloverDays: int, now: int) returns (sym: Symbol)
    ensures sym == Symbol(ticker + Code(Nearest(DateOf(now / TICKS_PER_DAY), rolloverDays)), "RTSX")
    ensures Names(sym.code, ticker, Nearest(DateOf(now / TICKS_PER_DAY), rolloverDays))
  {
    var today := DateOf(now / TICKS_PER_DAY);
    var month, year := today.month, today.year;
    if !IsQuarterly(month) {
      month, year := NextQuarterlyInPlace(month, year);
    }
    var tf := ThirdFriday(year, month);
    if today.year == year && today.month == month && today.day >= tf - rolloverDays {
      month, year := NextQuarterlyInPlace(month, year);
    }
    assert Contract(year, month) == Nearest(today, rolloverDays);
    CodeNames(ticker, Contract(year, month));
    var letter, digit := QuarterLetter(month), DigitString(LastDigit(year));
    assert ticker + [letter] + digit == ticker + ([letter] + digit);
    sym := Symbol(ticker + [letter] + digit, "RTSX");
  }

  method NextQuarterlyInPlace(month: int, year: int) returns (month': int, year': int)
    requires 1 <= month <= 12
    ensures Contract(year', month') == NextQuarterly(Contract(year, month))
    ensures IsQuarterly(month')
  {
    var next := NextQuarterlyMonth(month);
    month', year' := month, year;
    if next <= month {
      year' := year' + 1;
    }
    month' := next;
  }
}
