/** Screenshot file names (`timestamp_for_filename` in
    `crates/chart-app-vello/src/screenshot.rs`): seconds since the epoch taken apart
    into a Gregorian date and time of day. */
module Calendar {
  import opened Arithmetic

  predicate IsLeapYear(year: nat) {
    (year % 4 == 0 && year % 100 != 0) || year % 400 == 0
  }

  function DaysInYear(year: nat): nat {
    if IsLeapYear(year) then 366 else 365
  }

  const Months: seq<nat> := [31, 28, 31, 30, 31, 30, 31, 31, 30, 31, 30, 31]

  /** Months are numbered from 1. */
  function DaysInMonth(year: nat, month: nat): nat
    requires 1 <= month <= 12
  {
    if month == 2 && IsLeapYear(year) then 29 else Months[month - 1]
  }

  datatype Date = Date(year: nat, month: nat, day: nat, hour: nat, minute: nat, second: nat)

  predicate ValidDate(d: Date) {
    && 1970 <= d.year && 1 <= d.month <= 12 && 1 <= d.day <= DaysInMonth(d.year, d.month)
    && d.hour < 24 && d.minute < 60 && d.second < 60
  }

  // ---------------------------------------------------------------------------
  // The closed form
  // ---------------------------------------------------------------------------

  /** Days of the year before the month. */
  function DaysBefore(year: nat, month: nat): nat
    requires 1 <= month <= 13
  {
    if month == 1 then 0 else DaysBefore(year, month - 1) + DaysInMonth(year, month - 1)
  }

  /** `tm_yday`: days since January 1. */
  function YearDay(d: Date): nat
    requires ValidDate(d)
  {
    DaysBefore(d.year, d.month) + d.day - 1
  }

  /** Seconds Since the Epoch, section 4.16 of the POSIX.1-2017 Base Definitions,
      with `tm_year` the years since 1900. */
  function SecondsSinceEpoch(d: Date): int
    requires ValidDate(d)
  {
    var tm_year := d.year - 1900;
    d.second + d.minute * 60 + d.hour * 3600 + YearDay(d) * 86400
    + (tm_year - 70) * 31536000 + ((tm_year - 69) / 4) * 86400
    - ((tm_year - 1) / 100) * 86400 + ((tm_year + 299) / 400) * 86400
  }

  /** Days from the epoch to January 1 of a year, as the formula counts them. */
  function DaysToYear(year: nat): int {
    (year - 1970) * 365 + (year - 1969) / 4 - (year - 1901) / 100 + (year - 1601) / 400
  }

  /** The formula adds a leap day after exactly the leap years. */
  lemma NextYear(year: nat)
    requires 1970 <= year
    ensures DaysToYear(year + 1) == DaysToYear(year) + DaysInYear(year)
  {
    CountAfter(year, 4, 492, 1969);
    CountAfter(year, 100, 19, 1901);
    CountAfter(year, 400, 4, 1601);
    LeapDays(year);
  }

  /** A year counted from just after a multiple of `m` passes the next multiple when
      it is one itself. */
  lemma CountAfter(year: nat, m: nat, k: nat, start: nat)
    requires m > 0 && start == k * m + 1 <= year
    ensures (year + 1 - start) / m == (year - start) / m + if year % m == 0 then 1 else 0
  {
    StepDiv(year - start, m);
    ShiftMod(year - start + 1, m, k);
  }

  lemma StepDiv(a: nat, m: nat)
    requires m > 0
    ensures (a + 1) / m == a / m + if (a + 1) % m == 0 then 1 else 0
  {
    var q, r := (a + 1) / m, (a + 1) % m;
    if r == 0 {
      MulNext(q - 1, m);
      DivUnique(a, m, q - 1, m - 1);
    } else {
      DivUnique(a, m, q, r - 1);
    }
  }

  lemma LeapDays(year: nat)
    ensures DaysInYear(year) == 365 + (if year % 4 == 0 then 1 else 0) - (if year % 100 == 0 then 1 else 0)
                                + (if year % 400 == 0 then 1 else 0)
  {
    if year % 100 == 0 {
      DivUnique(year, 4, year / 100 * 25, 0);
    }
    if year % 400 == 0 {
      DivUnique(year, 100, year / 400 * 4, 0);
    }
  }

  lemma ShiftMod(a: nat, m: nat, k: nat)
    requires m > 0
    ensures (a + k * m) % m == a % m
  {
    assert a + k * m == (a / m + k) * m + a % m by {
      MulSum(a / m, k, m);
    }
    DivUnique(a + k * m, m, a / m + k, a % m);
  }

  lemma MulSum(a: int, b: int, m: int)
    ensures (a + b) * m == a * m + b * m
  {
  }

  lemma SecondsOfDays(d: Date)
    requires ValidDate(d)
    ensures SecondsSinceEpoch(d)
         == (DaysToYear(d.year) + YearDay(d)) * 86400 + d.hour * 3600 + d.minute * 60 + d.second
  {
    hide YearDay;
  }

  lemma WholeYear(year: nat)
    ensures DaysBefore(year, 13) == DaysInYear(year)
  {
    assert DaysBefore(year, 2) == 31;
    assert DaysBefore(year, 3) == 31 + DaysInMonth(year, 2);
    assert DaysBefore(year, 4) == DaysBefore(year, 3) + 31;
    assert DaysBefore(year, 5) == DaysBefore(year, 4) + 30;
    assert DaysBefore(year, 6) == DaysBefore(year, 5) + 31;
    assert DaysBefore(year, 7) == DaysBefore(year, 6) + 30;
    assert DaysBefore(year, 8) == DaysBefore(year, 7) + 31;
    assert DaysBefore(year, 9) == DaysBefore(year, 8) + 31;
    assert DaysBefore(year, 10) == DaysBefore(year, 9) + 30;
    assert DaysBefore(year, 11) == DaysBefore(year, 10) + 31;
    assert DaysBefore(year, 12) == DaysBefore(year, 11) + 30;
    assert DaysBefore(year, 13) == DaysBefore(year, 12) + 31;
  }

  // ---------------------------------------------------------------------------
  // The decomposition
  // ---------------------------------------------------------------------------

  method Decompose(secs: nat) returns (d: Date)
    ensures ValidDate(d) && SecondsSinceEpoch(d) == secs
  {
    var s := secs % 60;
    var m := (secs / 60) % 60;
    var h := (secs / 3600) % 24;
    var days: nat := secs / 86400;
    var year: nat := 1970;
    while true
      invariant 1970 <= year && DaysToYear(year) + days == secs / 86400
      decreases days
    {
      var daysInYear := if IsLeapYear(year) then 366 else 365;
      if days < daysInYear {
        break;
      }
      NextYear(year);
      days := days - daysInYear;
      year := year + 1;
    }
    hide DaysToYear, IsLeapYear;
    WholeYear(year);
    var month: nat := 1;
    var day: nat := days + 1;
    for i := 0 to |Months|
      invariant month == i + 1
      invariant DaysBefore(year, month) + day == days + 1 && day >= 1
    {
      var dim := if i == 1 && IsLeapYear(year) then 29 else Months[i];
      if day <= dim {
        break;
      }
      day := day - dim;
      month := month + 1;
    }
    d := Date(year, month, day, h, m, s);
    TimeOfDay(secs);
    SecondsOfDays(d);
  }

  lemma TimeOfDay(secs: nat)
    ensures secs == (secs / 86400) * 86400 + (secs / 3600 % 24) * 3600 + (secs / 60 % 60) * 60 + secs % 60
  {
    var minutes, hours := secs / 60, secs / 3600;
    DivUnique(minutes, 60, hours, minutes - hours * 60);
    DivUnique(hours, 24, secs / 86400, hours - (secs / 86400) * 24);
  }

  // ---------------------------------------------------------------------------
  // The formula determines the date
  // ---------------------------------------------------------------------------

  /** Order of dates, field by field. */
  predicate Earlier(a: Date, b: Date) {
    || a.year < b.year
    || (a.year == b.year && a.month < b.month)
    || (a.year == b.year && a.month == b.month && a.day < b.day)
    || (a.year == b.year && a.month == b.month && a.day == b.day && TimeValue(a) < TimeValue(b))
  }

  function TimeValue(d: Date): nat {
    d.hour * 3600 + d.minute * 60 + d.second
  }

  lemma {:induction false} YearsGrow(a: nat, b: nat)
    requires 1970 <= a < b
    ensures DaysToYear(a) + DaysInYear(a) <= DaysToYear(b)
    decreases b
  {
    hide DaysToYear;
    NextYear(b - 1);
    if a < b - 1 {
      YearsGrow(a, b - 1);
    }
  }

  lemma {:induction false} MonthsGrow(year: nat, a: nat, b: nat)
    requires 1 <= a < b <= 13
    ensures DaysBefore(year, a) + DaysInMonth(year, a) <= DaysBefore(year, b)
    decreases b
  {
    if a < b - 1 {
      MonthsGrow(year, a, b - 1);
    }
  }

  lemma YearDayBound(d: Date)
    requires ValidDate(d)
    ensures YearDay(d) < DaysInYear(d.year)
  {
    MonthsGrow(d.year, d.month, 13);
    WholeYear(d.year);
  }

  /** Later dates have larger values, so the formula is one-to-one on valid dates and
      the decomposition is its only inverse. */
  lemma EarlierIsSmaller(a: Date, b: Date)
    requires ValidDate(a) && ValidDate(b) && Earlier(a, b)
    ensures SecondsSinceEpoch(a) < SecondsSinceEpoch(b)
  {
    hide SecondsSinceEpoch, DaysToYear, DaysBefore;
    SecondsOfDays(a);
    SecondsOfDays(b);
    YearDayBound(a);
    if a.year < b.year {
      YearsGrow(a.year, b.year);
    } else if a.month < b.month {
      MonthsGrow(a.year, a.month, b.month);
    }
  }

  lemma SameSecondsSameDate(a: Date, b: Date)
    requires ValidDate(a) && ValidDate(b) && SecondsSinceEpoch(a) == SecondsSinceEpoch(b)
    ensures a == b
  {
    hide SecondsSinceEpoch;
    if Earlier(a, b) {
      EarlierIsSmaller(a, b);
    } else if Earlier(b, a) {
      EarlierIsSmaller(b, a);
    }
  }

  // ---------------------------------------------------------------------------
  // The file name
  // ---------------------------------------------------------------------------

  function Digit(n: nat): char
    requires n < 10
  {
    '0' + n as char
  }

  /** At least `width` decimal digits, padded with zeros. */
  function Padded(n: nat, width: nat): string
    decreases n, width
  {
    if n < 10 && width <= 1 then [Digit(n)]
    else Padded(n / 10, if width == 0 then 0 else width - 1) + [Digit(n % 10)]
  }

  function FileName(d: Date): string {
    Padded(d.year, 4) + Padded(d.month, 2) + Padded(d.day, 2) + "_"
    + Padded(d.hour, 2) + Padded(d.minute, 2) + Padded(d.second, 2)
  }

  /** The name spells the one date whose value is the given second count. */
  method TimestampForFilename(secs: nat) returns (name: string)
    ensures exists d :: ValidDate(d) && SecondsSinceEpoch(d) == secs && name == FileName(d)
    ensures forall d :: ValidDate(d) && SecondsSinceEpoch(d) == secs ==> name == FileName(d)
  {
    hide SecondsSinceEpoch, Padded;
    var date := Decompose(secs);
    forall d | ValidDate(d) && SecondsSinceEpoch(d) == secs
      ensures d == date
    {
      SameSecondsSameDate(d, date);
    }
    name := Padded(date.year, 4) + Padded(date.month, 2) + Padded(date.day, 2) + "_"
          + Padded(date.hour, 2) + Padded(date.minute, 2) + Padded(date.second, 2);
  }

  /** Lexicographic order of names. */
  predicate NameLess(s: string, t: string) {
    if s == "" then t != ""
    else t != "" && (s[0] < t[0] || (s[0] == t[0] && NameLess(s[1..], t[1..])))
  }

  lemma {:induction false} NameLessPrefix(p: string, s: string, t: string)
    ensures NameLess(p + s, p + t) <==> NameLess(s, t)
  {
    if p == "" {
      assert p + s == s && p + t == t;
    } else {
      NameLessPrefix(p[1..], s, t);
      assert (p + s)[1..] == p[1..] + s && (p + t)[1..] == p[1..] + t;
    }
  }

  lemma {:induction false} NameLessHead(a: string, b: string, s: string, t: string)
    requires |a| == |b| && a != b
    ensures NameLess(a + s, b + t) <==> NameLess(a, b)
  {
    if a != "" {
      assert (a + s)[1..] == a[1..] + s && (b + t)[1..] == b[1..] + t;
      if a[0] == b[0] {
        assert a == [a[0]] + a[1..] && b == [b[0]] + b[1..];
        NameLessHead(a[1..], b[1..], s, t);
      }
    }
  }

  function Pow10(k: nat): (p: nat)
    ensures p > 0
  {
    if k == 0 then 1 else 10 * Pow10(k - 1)
  }

  /** Fixed-width decimals compare as numbers. */
  lemma {:induction false} PaddedOrder(m: nat, n: nat, width: nat)
    requires width >= 1 && m < Pow10(width) && n < Pow10(width)
    ensures |Padded(m, width)| == width && |Padded(n, width)| == width
    ensures NameLess(Padded(m, width), Padded(n, width)) <==> m < n
    ensures Padded(m, width) == Padded(n, width) <==> m == n
    decreases width
  {
    if width == 1 {
      assert Pow10(1) == 10;
      assert NameLess([Digit(m)], [Digit(n)]) <==> m < n;
    } else {
      PaddedOrder(m / 10, n / 10, width - 1);
      var a, b := Padded(m / 10, width - 1), Padded(n / 10, width - 1);
      assert Padded(m, width) == a + [Digit(m % 10)] && Padded(n, width) == b + [Digit(n % 10)];
      if m / 10 == n / 10 {
        NameLessPrefix(a, [Digit(m % 10)], [Digit(n % 10)]);
        assert Padded(m, width)[width - 1] == Digit(m % 10) && Padded(n, width)[width - 1] == Digit(n % 10);
        assert NameLess([Digit(m % 10)], [Digit(n % 10)]) <==> m % 10 < n % 10;
      } else {
        NameLessHead(a, b, [Digit(m % 10)], [Digit(n % 10)]);
        assert Padded(m, width)[..width - 1] == a && Padded(n, width)[..width - 1] == b;
      }
    }
  }

  /** Equal heads leave the order to the tails, different ones decide it. */
  lemma FieldOrder(m: nat, n: nat, width: nat, s: string, t: string)
    requires width >= 1 && m < Pow10(width) && n < Pow10(width)
    ensures NameLess(Padded(m, width) + s, Padded(n, width) + t) <==> m < n || (m == n && NameLess(s, t))
  {
    hide Padded, NameLess, Pow10;
    PaddedOrder(m, n, width);
    if m == n {
      NameLessPrefix(Padded(m, width), s, t);
    } else {
      NameLessHead(Padded(m, width), Padded(n, width), s, t);
    }
  }

  lemma MonthLength(year: nat, month: nat)
    requires 1 <= month <= 12
    ensures DaysInMonth(year, month) <= 31
  {
  }

  lemma PowersOfTen()
    ensures Pow10(2) == 100 && Pow10(4) == 10000
  {
    assert Pow10(1) == 10;
    assert Pow10(3) == 1000;
  }

  /** Up to the year 9999 the names sort in time order. */
  lemma NamesSortByTime(a: Date, b: Date)
    requires ValidDate(a) && ValidDate(b) && a.year <= 9999 && b.year <= 9999
    ensures NameLess(FileName(a), FileName(b)) <==> SecondsSinceEpoch(a) < SecondsSinceEpoch(b)
  {
    hide Padded, NameLess, Pow10, SecondsSinceEpoch, DaysInMonth;
    PowersOfTen();
    MonthLength(a.year, a.month);
    MonthLength(b.year, b.month);
    var s1, t1 := Padded(a.second, 2), Padded(b.second, 2);
    PaddedOrder(a.second, b.second, 2);
    var s2, t2 := Padded(a.minute, 2) + s1, Padded(b.minute, 2) + t1;
    FieldOrder(a.minute, b.minute, 2, s1, t1);
    var s3, t3 := Padded(a.hour, 2) + s2, Padded(b.hour, 2) + t2;
    FieldOrder(a.hour, b.hour, 2, s2, t2);
    NameLessPrefix("_", s3, t3);
    var s4, t4 := "_" + s3, "_" + t3;
    var s5, t5 := Padded(a.day, 2) + s4, Padded(b.day, 2) + t4;
    FieldOrder(a.day, b.day, 2, s4, t4);
    var s6, t6 := Padded(a.month, 2) + s5, Padded(b.month, 2) + t5;
    FieldOrder(a.month, b.month, 2, s5, t5);
    FieldOrder(a.year, b.year, 4, s6, t6);
    assert FileName(a) == Padded(a.year, 4) + s6 && FileName(b) == Padded(b.year, 4) + t6;
    TimeOrder(a, b);
    assert NameLess(FileName(a), FileName(b)) <==> Earlier(a, b);
    if Earlier(a, b) {
      EarlierIsSmaller(a, b);
    } else if Earlier(b, a) {
      EarlierIsSmaller(b, a);
    } else {
      assert a == b;
    }
  }

  lemma TimeOrder(a: Date, b: Date)
    requires ValidDate(a) && ValidDate(b)
    ensures TimeValue(a) < TimeValue(b) <==>
              a.hour < b.hour || (a.hour == b.hour && (a.minute < b.minute || (a.minute == b.minute && a.second < b.second)))
  {
  }

  /** The years up to 9999 are the second counts below 253402300800. */
  lemma FourDigitYears(d: Date)
    requires ValidDate(d)
    ensures d.year <= 9999 <==> SecondsSinceEpoch(d) < 253402300800
  {
    assert DaysToYear(10000) == 2932897;
    hide SecondsSinceEpoch, DaysToYear, YearDay;
    SecondsOfDays(d);
    YearDayBound(d);
    if d.year <= 9999 {
      YearsGrow(d.year, 10000);
    } else if d.year > 10000 {
      YearsGrow(10000, d.year);
    }
  }

  /** In the year 10000 they do not: the fifth digit spoils the order. */
  lemma Year10000Counterexample()
    ensures var a, b := Date(9999, 12, 31, 23, 59, 59), Date(10000, 1, 1, 0, 0, 0);
      ValidDate(a) && ValidDate(b) && SecondsSinceEpoch(a) < SecondsSinceEpoch(b) && NameLess(FileName(b), FileName(a))
  {
    var a, b := Date(9999, 12, 31, 23, 59, 59), Date(10000, 1, 1, 0, 0, 0);
    EarlierIsSmaller(a, b);
    Years9999And10000();
    var s, t := FileName(b), FileName(a);
    hide Padded;
    assert s[0] == Padded(10000, 4)[0] && t[0] == Padded(9999, 4)[0];
  }

  lemma Years9999And10000()
    ensures |Padded(9999, 4)| > 0 && Padded(9999, 4)[0] == '9'
    ensures |Padded(10000, 4)| > 0 && Padded(10000, 4)[0] == '1'
  {
    assert Padded(9, 1) == "9";
    assert Padded(99, 2) == Padded(9, 1) + "9";
    assert Padded(999, 3) == Padded(99, 2) + "9";
    assert Padded(9999, 4) == Padded(999, 3) + "9";
    assert Padded(1, 0) == "1";
    assert Padded(10, 1) == Padded(1, 0) + "0";
    assert Padded(100, 2) == Padded(10, 1) + "0";
    assert Padded(1000, 3) == Padded(100, 2) + "0";
    assert Padded(10000, 4) == Padded(1000, 3) + "0";
  }

  ghost predicate NamesAgree(a: Date, b: Date)
    requires ValidDate(a) && ValidDate(b)
  {
    NameLess(FileName(a), FileName(b)) <==> SecondsSinceEpoch(a) < SecondsSinceEpoch(b)
  }

  /** Names of all dates up to a year sort in time order exactly when the year has at
      most four digits. */
  lemma NamesSortExactly(year: nat)
    requires 1970 <= year
    ensures (forall a, b :: ValidDate(a) && ValidDate(b) && a.year <= year && b.year <= year ==> NamesAgree(a, b))
            <==> year <= 9999
  {
    hide ValidDate, FileName, NameLess, SecondsSinceEpoch;
    if year <= 9999 {
      forall a, b | ValidDate(a) && ValidDate(b) && a.year <= year && b.year <= year
        ensures NamesAgree(a, b)
      {
        NamesSortByTime(a, b);
      }
    } else {
      Year10000Counterexample();
      var a, b := Date(9999, 12, 31, 23, 59, 59), Date(10000, 1, 1, 0, 0, 0);
      assert ValidDate(a) && ValidDate(b);
      NamesDiffer(a, b);
    }
  }

  lemma NamesDiffer(a: Date, b: Date)
    requires ValidDate(a) && ValidDate(b) && SecondsSinceEpoch(a) < SecondsSinceEpoch(b) && NameLess(FileName(b), FileName(a))
    ensures !NamesAgree(a, b)
  {
    hide FileName, SecondsSinceEpoch, ValidDate;
    NotBoth(FileName(b), FileName(a));
  }

  lemma {:induction false} NotBoth(s: string, t: string)
    requires NameLess(s, t)
    ensures !NameLess(t, s)
  {
    if s != "" && s[0] == t[0] {
      NotBoth(s[1..], t[1..]);
    }
  }

  /** Thirty days has September; February has 28 or, in leap years, 29. */
  lemma MonthLengths(year: nat, month: nat)
    requires 1 <= month <= 12
    ensures DaysInMonth(year, month) ==
              if month == 2 then (if DaysInYear(year) == 366 then 29 else 28)
              else if month in {4, 6, 9, 11} then 30 else 31
  {
  }

  /** The billionth second, and its name. */
  lemma BillionthSecond()
    ensures var d := Date(2001, 9, 9, 1, 46, 40);
      ValidDate(d) && SecondsSinceEpoch(d) == 1_000_000_000 && FileName(d) == "20010909_014640"
  {
    hide Padded, SecondsSinceEpoch, ValidDate;
    BillionthDay(Date(2001, 9, 9, 1, 46, 40));
    BillionthDigits();
    assert "2001" + "09" + "09" + "_" + "01" + "46" + "40" == "20010909_014640";
  }

  lemma BillionthDigits()
    ensures Padded(2001, 4) == "2001" && Padded(9, 2) == "09" && Padded(1, 2) == "01"
    ensures Padded(46, 2) == "46" && Padded(40, 2) == "40"
  {
    hide Padded;
    TwoDigits(9);
    TwoDigits(1);
    TwoDigits(46);
    TwoDigits(40);
    FourDigits(2001);
  }

  lemma BillionthDay(d: Date)
    requires d == Date(2001, 9, 9, 1, 46, 40)
    ensures ValidDate(d) && SecondsSinceEpoch(d) == 1_000_000_000
  {
    assert DaysInMonth(2001, 2) == 28 && !IsLeapYear(2001);
    assert DaysBefore(2001, 2) == 31;
    assert DaysBefore(2001, 3) == 59;
    assert DaysBefore(2001, 4) == 90;
    assert DaysBefore(2001, 5) == 120;
    assert DaysBefore(2001, 6) == 151;
    assert DaysBefore(2001, 7) == 181;
    assert DaysBefore(2001, 8) == 212;
    assert DaysBefore(2001, 9) == 243;
    hide DaysBefore;
    assert YearDay(d) == 251;
    SecondsOfDays(d);
  }

  lemma TwoDigits(n: nat)
    requires n < 100
    ensures Padded(n, 2) == [Digit(n / 10), Digit(n % 10)]
  {
    assert Padded(n / 10, 1) == [Digit(n / 10)];
  }

  lemma FourDigits(n: nat)
    requires n < 10000
    ensures Padded(n, 4) == [Digit(n / 1000), Digit(n / 100 % 10), Digit(n / 10 % 10), Digit(n % 10)]
  {
    assert Padded(n / 1000, 1) == [Digit(n / 1000)];
    assert n / 100 / 10 == n / 1000 && n / 10 / 10 == n / 100;
    assert Padded(n / 100, 2) == Padded(n / 1000, 1) + [Digit(n / 100 % 10)];
    assert Padded(n / 10, 3) == Padded(n / 100, 2) + [Digit(n / 10 % 10)];
  }
}
