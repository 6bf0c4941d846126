/** Day iteration and the per-day CSV file name, shared by the download loop
    of `main.py` and the aggregation loop of `resume_img.py`.

    An instant is a naive datetime with whole seconds, counted from
    0001-01-01T00:00:00 of the proleptic Gregorian calendar. */
module Calendar {

  const SecondsPerDay: nat := 86400

  /** The instants `current` takes in `while current <= end_date`, stepping
      one day at a time; empty when start is after end. */
  function Days(start: nat, end: nat): seq<nat>
    decreases end + SecondsPerDay - start
  {
    if start > end then [] else [start] + Days(start + SecondsPerDay, end)
  }

  /** The loop visits start + k days for k = 0, 1, ... as long as that is
      not after end: (end - start) div 86400 + 1 days, none if start > end. */
  lemma {:induction false} DaysShape(start: nat, end: nat)
    ensures |Days(start, end)| == if start <= end then (end - start) / SecondsPerDay + 1 else 0
    ensures forall k :: 0 <= k < |Days(start, end)| ==>
              Days(start, end)[k] == start + k * SecondsPerDay && Days(start, end)[k] <= end
    decreases end + SecondsPerDay - start
  {
    if start <= end {
      var next := start + SecondsPerDay;
      DaysShape(next, end);
      var ds := Days(start, end);
      assert ds == [start] + Days(next, end);
      if next <= end {
        assert (end - start) / SecondsPerDay == (end - next) / SecondsPerDay + 1;
      } else {
        assert (end - start) / SecondsPerDay == 0;
      }
      forall k | 0 < k < |ds|
        ensures ds[k] == start + k * SecondsPerDay
      {
        assert ds[k] == Days(next, end)[k - 1];
      }
    }
  }

  /** `day_end`: one day later, minus one second. */
  function DayEnd(t: nat): (e: nat)
    ensures e < t + SecondsPerDay && t <= e
  {
    t + SecondsPerDay - 1
  }

  /** Length of month m (1..12), with February's leap day when `leap`. */
  function MonthLength(m: int, leap: bool): (n: nat)
    ensures 28 <= n <= 31
  {
    if m == 2 then (if leap then 29 else 28)
    else if m == 4 || m == 6 || m == 9 || m == 11 then 30
    else 31
  }

  /** Month and day of the r-th day (from 0) counted from the first day of
      month m, walking forward month by month and stopping at December. */
  function MonthDay(r: nat, leap: bool, m: int): (md: (int, int))
    requires 1 <= m <= 12
    ensures m <= md.0 <= 12 && md.1 >= 1
    ensures md.0 < 12 ==> md.1 <= MonthLength(md.0, leap)
    decreases 12 - m
  {
    if m == 12 || r < MonthLength(m, leap) then (m, r + 1)
    else MonthDay(r - MonthLength(m, leap), leap, m + 1)
  }

  datatype Date = Date(year: int, month: int, day: int)

  /** Calendar date of the n-th day after 0001-01-01: whole 400-, 100-, 4-
      and 1-year cycles give the year, the rest of the days the month and day. */
  function CivilDate(n: nat): (d: Date)
    ensures d.year >= 1 && 1 <= d.month <= 12 && d.day >= 1
  {
    var r400 := n % 146097;
    var r100 := r400 % 36524;
    var r4 := r100 % 1461;
    CycleDate(n / 146097, r400 / 36524, r100 / 1461, r4 / 365, r4 % 365)
  }

  /** The date reached after n400, n100, n4 and n1 whole 400-, 100-, 4- and
      1-year cycles and r1 more days. */
  function CycleDate(n400: nat, n100: nat, n4: nat, n1: nat, r1: nat): (d: Date)
    ensures d.year >= 1 && 1 <= d.month <= 12 && d.day >= 1
  {
    var year := n400 * 400 + 1 + n100 * 100 + n4 * 4 + n1;
    if n1 == 4 || n100 == 4 then
      // the last day of a leap year closing a 4- or 400-year cycle
      Date(year - 1, 12, 31)
    else
      var leap := n1 == 3 && (n4 != 24 || n100 == 3);
      var md := MonthDay(r1, leap, 1);
      Date(year, md.0, md.1)
  }

  /** Python's leap-year rule (`calendar.isleap`). */
  predicate IsLeap(y: int)
  {
    y % 4 == 0 && (y % 100 != 0 || y % 400 == 0)
  }

  /** A date that exists in the proleptic Gregorian calendar. */
  predicate ValidDate(d: Date)
  {
    d.year >= 1 && 1 <= d.month <= 12 && 1 <= d.day <= MonthLength(d.month, IsLeap(d.year))
  }

  /** Days in the years before year y (Python's `_days_before_year`). */
  function DaysBeforeYear(y: int): int
    requires y >= 1
  {
    var p := y - 1;
    365 * p + p / 4 - p / 100 + p / 400
  }

  /** Days in the months before month m of a year (`_days_before_month`). */
  function DaysBeforeMonth(m: int, leap: bool): nat
    requires 1 <= m <= 13
  {
    if m == 1 then 0 else DaysBeforeMonth(m - 1, leap) + MonthLength(m - 1, leap)
  }

  /** The day number of a date, counted from 0001-01-01 as day 0: Python's
      `date.toordinal()` minus one, defined independently of `CivilDate`. */
  function DaysFromCivil(d: Date): int
    requires ValidDate(d)
  {
    DaysBeforeYear(d.year) + DaysBeforeMonth(d.month, IsLeap(d.year)) + d.day - 1
  }

  /** December starts 334 days into a common year and the year has 365
      days, one more of each in a leap year. */
  lemma DaysBeforeMonthEnds(leap: bool)
    ensures DaysBeforeMonth(12, leap) == 334 + (if leap then 1 else 0)
    ensures DaysBeforeMonth(13, leap) == 365 + (if leap then 1 else 0)
  {
    var e := if leap then 1 else 0;
    assert DaysBeforeMonth(2, leap) == 31;
    assert DaysBeforeMonth(3, leap) == 59 + e;
    assert DaysBeforeMonth(4, leap) == 90 + e;
    assert DaysBeforeMonth(5, leap) == 120 + e;
    assert DaysBeforeMonth(6, leap) == 151 + e;
    assert DaysBeforeMonth(7, leap) == 181 + e;
    assert DaysBeforeMonth(8, leap) == 212 + e;
    assert DaysBeforeMonth(9, leap) == 243 + e;
    assert DaysBeforeMonth(10, leap) == 273 + e;
    assert DaysBeforeMonth(11, leap) == 304 + e;
  }

  /** Walking from month m, the r-th remaining day of the year lands on a
      day within its month, and counting back from that month and day
      gives r again. */
  lemma {:induction false} MonthDayInverse(r: nat, leap: bool, m: int)
    requires 1 <= m <= 12 && DaysBeforeMonth(m, leap) + r < DaysBeforeMonth(13, leap)
    ensures var md := MonthDay(r, leap, m);
            1 <= md.1 <= MonthLength(md.0, leap) &&
            DaysBeforeMonth(md.0, leap) + md.1 - 1 == DaysBeforeMonth(m, leap) + r
    decreases 12 - m
  {
    if m == 12 {
      assert MonthDay(r, leap, m) == (12, r + 1);
      assert DaysBeforeMonth(13, leap) == DaysBeforeMonth(12, leap) + MonthLength(12, leap);
    } else if r >= MonthLength(m, leap) {
      var rest := r - MonthLength(m, leap);
      assert MonthDay(r, leap, m) == MonthDay(rest, leap, m + 1);
      assert DaysBeforeMonth(m + 1, leap) == DaysBeforeMonth(m, leap) + MonthLength(m, leap);
      MonthDayInverse(rest, leap, m + 1);
    } else {
      assert MonthDay(r, leap, m) == (m, r + 1);
    }
  }

  /** Years made of whole 400-, 100-, 4- and 1-year cycles hold the days of
      those cycles. */
  lemma DaysBeforeYearCycles(a: nat, b: nat, c: nat, d: nat)
    requires b < 4 && c < 25 && d < 4
    ensures DaysBeforeYear(400 * a + 100 * b + 4 * c + d + 1) == 146097 * a + 36524 * b + 1461 * c + 365 * d
  {
    var p := 400 * a + 100 * b + 4 * c + d;
    assert p / 4 == 100 * a + 25 * b + c;
    assert p / 100 == 4 * a + b;
    assert p / 400 == a;
  }

  lemma Rem4(q: int, r: int)
    ensures (4 * q + r) % 4 == r % 4
  {
  }

  lemma Rem100(q: int, r: int)
    ensures (100 * q + r) % 100 == r % 100
  {
  }

  lemma Rem400(q: int, r: int)
    ensures (400 * q + r) % 400 == r % 400
  {
  }

  /** The remainders of such a year by 4, 100 and 400. */
  lemma CycleRemainders(a: nat, b: nat, c: nat, d: nat)
    requires b < 4 && c < 25 && d < 4
    ensures var y := 400 * a + 100 * b + 4 * c + d + 1;
            && y % 4 == (d + 1) % 4
            && y % 100 == (4 * c + d + 1) % 100
            && y % 400 == (100 * b + 4 * c + d + 1) % 400
  {
    var y := 400 * a + 100 * b + 4 * c + d + 1;
    assert y == 4 * (100 * a + 25 * b + c) + (d + 1);
    Rem4(100 * a + 25 * b + c, d + 1);
    assert y == 100 * (4 * a + b) + (4 * c + d + 1);
    Rem100(4 * a + b, 4 * c + d + 1);
    Rem400(a, 100 * b + 4 * c + d + 1);
  }

  /** The year after such cycles is a leap year exactly when it ends a
      4-year cycle that is not a century, or ends a 400-year cycle. */
  lemma LeapCycles(a: nat, b: nat, c: nat, d: nat)
    requires b < 4 && c < 25 && d < 4
    ensures IsLeap(400 * a + 100 * b + 4 * c + d + 1) <==> d == 3 && (c != 24 || b == 3)
  {
    CycleRemainders(a, b, c, d);
  }

  /** A day inside a year made of whole cycles: its date is valid and its
      day number is the one it came from. */
  lemma RegularDay(n: nat, a: nat, b: nat, c: nat, d: nat, r: nat)
    requires b < 4 && c < 25 && d < 4 && r < 365
    requires n == 146097 * a + 36524 * b + 1461 * c + 365 * d + r
    ensures var leap := d == 3 && (c != 24 || b == 3);
            var md := MonthDay(r, leap, 1);
            var date := Date(400 * a + 100 * b + 4 * c + d + 1, md.0, md.1);
            ValidDate(date) && DaysFromCivil(date) == n
  {
    var leap := d == 3 && (c != 24 || b == 3);
    DaysBeforeYearCycles(a, b, c, d);
    LeapCycles(a, b, c, d);
    DaysBeforeMonthEnds(leap);
    MonthDayInverse(r, leap, 1);
  }

  /** The 366th day of a leap year closing a 4- or 400-year cycle is
      31 December of that year. */
  lemma LeapYearEnd(n: nat, a: nat, b: nat, c: nat)
    requires b < 4 && c < 25 && (c < 24 || b == 3)
    requires n == 146097 * a + 36524 * b + 1461 * c + 1460
    ensures ValidDate(Date(400 * a + 100 * b + 4 * c + 4, 12, 31))
    ensures DaysFromCivil(Date(400 * a + 100 * b + 4 * c + 4, 12, 31)) == n
  {
    DaysBeforeYearCycles(a, b, c, 3);
    LeapCycles(a, b, c, 3);
    DaysBeforeMonthEnds(true);
  }

  /** Splitting a day number into whole 400-, 100-, 4- and 1-year cycles
      leaves at most four of each smaller cycle, and a fourth 100-year or
      1-year cycle only ever reaches the last day of its leap year. */
  lemma CycleSplit(n: nat)
    ensures var r400 := n % 146097; var r100 := r400 % 36524;
            var r4 := r100 % 1461; var n100 := r400 / 36524;
            var n4 := r100 / 1461; var n1 := r4 / 365; var r1 := r4 % 365;
            n == 146097 * (n / 146097) + 36524 * n100 + 1461 * n4 + 365 * n1 + r1
            && CycleShape(n100, n4, n1, r1)
  {
    var r400 := n % 146097;
    var r100 := r400 % 36524;
    var r4 := r100 % 1461;
    assert r400 == 36524 * (r400 / 36524) + r100;
    assert r100 == 1461 * (r100 / 1461) + r4;
    assert r4 == 365 * (r4 / 365) + r4 % 365;
  }

  /** The counts a day number splits into: at most four 100-year cycles
      (the fourth only on the 400-year cycle's last day), at most 24 4-year
      cycles and at most four years (the fourth only on a leap year's last
      day), and fewer than 365 days. */
  predicate CycleShape(n100: nat, n4: nat, n1: nat, r1: nat)
  {
    n100 <= 4 && n4 <= 24 && n1 <= 4 && r1 < 365
    && (n100 == 4 ==> n4 == 0 && n1 == 0 && r1 == 0)
    && (n1 == 4 ==> r1 == 0 && n4 < 24)
  }

  /** The date after a split into cycles is valid and its day number is
      the day number split. */
  lemma CycleDateRoundTrip(n: nat, n400: nat, n100: nat, n4: nat, n1: nat, r1: nat)
    requires CycleShape(n100, n4, n1, r1)
    requires n == 146097 * n400 + 36524 * n100 + 1461 * n4 + 365 * n1 + r1
    ensures ValidDate(CycleDate(n400, n100, n4, n1, r1))
    ensures DaysFromCivil(CycleDate(n400, n100, n4, n1, r1)) == n
  {
    if n100 == 4 {
      assert CycleDate(n400, n100, n4, n1, r1) == Date(400 * n400 + 400, 12, 31);
      LeapYearEnd(n, n400, 3, 24);
    } else if n1 == 4 {
      assert CycleDate(n400, n100, n4, n1, r1) == Date(400 * n400 + 100 * n100 + 4 * n4 + 4, 12, 31);
      LeapYearEnd(n, n400, n100, n4);
    } else {
      RegularDay(n, n400, n100, n4, n1, r1);
    }
  }

  /** Every day number names a valid date, and that date's day number is
      the one it came from. */
  lemma CivilDateRoundTrip(n: nat)
    ensures ValidDate(CivilDate(n)) && DaysFromCivil(CivilDate(n)) == n
  {
    CycleSplit(n);
    var r400 := n % 146097;
    var r100 := r400 % 36524;
    var r4 := r100 % 1461;
    CycleDateRoundTrip(n, n / 146097, r400 / 36524, r100 / 1461, r4 / 365, r4 % 365);
  }

  /** Day 0 is 0001-01-01. */
  lemma CivilDateFirstDay()
    ensures CivilDate(0) == Date(1, 1, 1)
  {
    assert 0 / 146097 == 0 && 0 % 146097 == 0 && 0 / 36524 == 0 && 0 % 36524 == 0;
    assert 0 / 1461 == 0 && 0 % 1461 == 0 && 0 / 365 == 0 && 0 % 365 == 0;
    assert MonthDay(0, false, 1) == (1, 1);
  }

  /** Day 59 is 0001-03-01: a common year's February has 28 days. */
  lemma CivilDateMarchFirst()
    ensures CivilDate(59) == Date(1, 3, 1)
  {
    assert 59 / 146097 == 0 && 59 % 146097 == 59 && 59 / 36524 == 0 && 59 % 36524 == 59;
    assert 59 / 1461 == 0 && 59 % 1461 == 59 && 59 / 365 == 0 && 59 % 365 == 59;
    assert MonthDay(0, false, 3) == (3, 1);
    assert MonthDay(28, false, 2) == (3, 1);
    assert MonthDay(59, false, 1) == (3, 1);
  }

  /** Day 1154 is 0004-02-29, the leap day of the first leap year. */
  lemma CivilDateLeapDay()
    ensures CivilDate(1154) == Date(4, 2, 29)
  {
    assert 1154 / 146097 == 0 && 1154 % 146097 == 1154 && 1154 / 36524 == 0 && 1154 % 36524 == 1154;
    assert 1154 / 1461 == 0 && 1154 % 1461 == 1154 && 1154 / 365 == 3 && 1154 % 365 == 59;
    assert MonthDay(28, true, 2) == (2, 29);
    assert MonthDay(59, true, 1) == (2, 29);
  }

  /** 2024-01-01 is day 738885, 2024 being a leap year. */
  lemma CivilDate2024()
    ensures CivilDate(738885) == Date(2024, 1, 1)
  {
    var n := 738885;
    assert n / 146097 == 5 && n % 146097 == 8400;
    assert 8400 / 36524 == 0 && 8400 / 1461 == 5 && 8400 % 1461 == 1095;
    assert 1095 / 365 == 3 && 1095 % 365 == 0;
  }

  /** Decimal digits of n, most significant first. */
  function Digits(n: nat): (s: string)
    ensures |s| > 0
  {
    var d := [('0' as int + n % 10) as char];
    if n < 10 then d else Digits(n / 10) + d
  }

  /** k zeros. */
  function Zeros(k: int): (s: string)
    ensures |s| == if k > 0 then k else 0
  {
    if k <= 0 then [] else ['0'] + Zeros(k - 1)
  }

  /** Decimal rendering left-padded with zeros to at least `width` digits
      (`%04d`, `%02d`). */
  function Padded(n: nat, width: nat): (s: string)
    ensures |s| >= width
  {
    var ds := Digits(n);
    Zeros(width - |ds|) + ds
  }

  /** Year, month and day written YYYY-MM-DD (`date.isoformat()`). */
  function DateStamp(year: nat, month: nat, day: nat): string
  {
    Padded(year, 4) + "-" + Padded(month, 2) + "-" + Padded(day, 2)
  }

  /** Hours, minutes and seconds written HH:MM:SS (`time.isoformat()`). */
  function TimeStamp(hour: nat, minute: nat, second: nat): string
  {
    Padded(hour, 2) + ":" + Padded(minute, 2) + ":" + Padded(second, 2)
  }

  /** Year, month, day, hours, minutes and seconds written
      YYYY-MM-DDTHH:MM:SS, each zero-padded to its width. */
  function Stamp(year: nat, month: nat, day: nat, hour: nat, minute: nat, second: nat): string
  {
    DateStamp(year, month, day) + "T" + TimeStamp(hour, minute, second)
  }

  /** `datetime.isoformat()` of an instant with whole seconds. */
  function Iso(t: nat): string
  {
    var date := CivilDate(t / SecondsPerDay);
    var secs := t % SecondsPerDay;
    Stamp(date.year, date.month, date.day, secs / 3600, secs % 3600 / 60, secs % 60)
  }

  /** 10 to the power w. */
  function Pow10(w: nat): (p: nat)
    ensures p >= 1
  {
    if w == 0 then 1 else 10 * Pow10(w - 1)
  }

  /** A number below 10^w has at most w digits. */
  lemma {:induction false} DigitsWidth(n: nat, w: nat)
    requires 1 <= w && n < Pow10(w)
    ensures |Digits(n)| <= w
    decreases w
  {
    if n >= 10 {
      assert w >= 2;
      DigitsWidth(n / 10, w - 1);
    }
  }

  /** A number below 10^w is padded to exactly w characters. */
  lemma PaddedWidth(n: nat, w: nat)
    requires 1 <= w && n < Pow10(w)
    ensures |Padded(n, w)| == w
  {
    DigitsWidth(n, w);
  }

  /** A year below 10000 and a month and day below 100 give a
      10-character date with '-' at 4 and 7 and each value in its slot. */
  lemma DateStampSlots(year: nat, month: nat, day: nat)
    requires year < 10000 && month < 100 && day < 100
    ensures var s := DateStamp(year, month, day);
            |s| == 10 && s[4] == '-' && s[7] == '-'
            && s[..4] == Padded(year, 4) && s[5..7] == Padded(month, 2) && s[8..] == Padded(day, 2)
  {
    assert Pow10(2) == 100 && Pow10(4) == 10000;
    PaddedWidth(year, 4);
    PaddedWidth(month, 2);
    PaddedWidth(day, 2);
  }

  /** Hours, minutes and seconds below 100 give an 8-character time with
      ':' at 2 and 5 and each value in its slot. */
  lemma TimeStampSlots(hour: nat, minute: nat, second: nat)
    requires hour < 100 && minute < 100 && second < 100
    ensures var s := TimeStamp(hour, minute, second);
            |s| == 8 && s[2] == ':' && s[5] == ':'
            && s[..2] == Padded(hour, 2) && s[3..5] == Padded(minute, 2) && s[6..] == Padded(second, 2)
  {
    assert Pow10(2) == 100;
    PaddedWidth(hour, 2);
    PaddedWidth(minute, 2);
    PaddedWidth(second, 2);
  }

  /** Values that fit their widths give a 19-character stamp with the
      separators at 4, 7, 10, 13 and 16 and each padded value in its slot. */
  lemma StampSlots(year: nat, month: nat, day: nat, hour: nat, minute: nat, second: nat)
    requires year < 10000 && month < 100 && day < 100 && hour < 100 && minute < 100 && second < 100
    ensures var s := Stamp(year, month, day, hour, minute, second);
            |s| == 19 && s[4] == '-' && s[7] == '-' && s[10] == 'T' && s[13] == ':' && s[16] == ':'
            && s[..4] == Padded(year, 4) && s[5..7] == Padded(month, 2) && s[8..10] == Padded(day, 2)
            && s[11..13] == Padded(hour, 2) && s[14..16] == Padded(minute, 2) && s[17..] == Padded(second, 2)
  {
    var d := DateStamp(year, month, day);
    var t := TimeStamp(hour, minute, second);
    DateStampSlots(year, month, day);
    TimeStampSlots(hour, minute, second);
    var s := Stamp(year, month, day, hour, minute, second);
    assert s[..10] == d && s[11..] == t;
    assert s[..4] == d[..4] && s[5..7] == d[5..7] && s[8..10] == d[8..];
    assert s[11..13] == t[..2] && s[14..16] == t[3..5] && s[17..] == t[6..];
  }

  /** Up to year 9999 (Python's `datetime.MAXYEAR`) an instant renders as
      YYYY-MM-DDTHH:MM:SS: 19 characters, with '-' at 4 and 7, 'T' at 10,
      ':' at 13 and 16, and each field zero-padded in its own slot. */
  lemma IsoShape(t: nat)
    requires CivilDate(t / SecondsPerDay).year <= 9999
    ensures var date := CivilDate(t / SecondsPerDay);
            var secs := t % SecondsPerDay;
            var s := Iso(t);
            |s| == 19 && s[4] == '-' && s[7] == '-' && s[10] == 'T' && s[13] == ':' && s[16] == ':'
            && s[..4] == Padded(date.year, 4) && s[5..7] == Padded(date.month, 2)
            && s[8..10] == Padded(date.day, 2) && s[11..13] == Padded(secs / 3600, 2)
            && s[14..16] == Padded(secs % 3600 / 60, 2) && s[17..] == Padded(secs % 60, 2)
  {
    var date := CivilDate(t / SecondsPerDay);
    var secs := t % SecondsPerDay;
    CivilDateRoundTrip(t / SecondsPerDay);
    StampSlots(date.year, date.month, date.day, secs / 3600, secs % 3600 / 60, secs % 60);
  }

  /** `str.replace(':', '-')`. */
  function Hyphenate(s: string): string
  {
    if s == [] then [] else [if s[0] == ':' then '-' else s[0]] + Hyphenate(s[1..])
  }

  /** Hyphenation keeps the length, turns every ':' into '-' and leaves
      every other character in place, so no ':' is left. */
  lemma {:induction false} HyphenateSpec(s: string)
    ensures |Hyphenate(s)| == |s| && ':' !in Hyphenate(s)
    ensures forall i :: 0 <= i < |s| ==> Hyphenate(s)[i] == (if s[i] == ':' then '-' else s[i])
  {
    if s != [] {
      HyphenateSpec(s[1..]);
      var r := Hyphenate(s);
      assert r == [if s[0] == ':' then '-' else s[0]] + Hyphenate(s[1..]);
      forall i | 0 < i < |s| ensures r[i] == (if s[i] == ':' then '-' else s[i]) {
        assert r[i] == Hyphenate(s[1..])[i - 1];
      }
    }
  }

  /** The text after the last '/' (`os.path.basename` on POSIX). */
  function Basename(path: string): (r: string)
    ensures '/' !in r
    ensures |r| <= |path| && r == path[|path| - |r|..]
    ensures |r| < |path| ==> path[|path| - |r| - 1] == '/'
  {
    if path == [] then []
    else if path[|path| - 1] == '/' then []
    else Basename(path[..|path| - 1]) + [path[|path| - 1]]
  }

  /** The text before the first '.' (`str.split('.')[0]`). */
  function BeforeDot(s: string): (r: string)
    ensures '.' !in r
    ensures |r| <= |s| && r == s[..|r|]
    ensures |r| < |s| ==> s[|r|] == '.'
  {
    if s == [] then []
    else if s[0] == '.' then []
    else [s[0]] + BeforeDot(s[1..])
  }

  /** The area name of a polygon file path: its base name up to the first dot. */
  function AreaStem(path: string): string
  {
    BeforeDot(Basename(path))
  }

  /** ISO date part as it appears in a file name: with its "Z" suffix and
      every ':' replaced by '-'. */
  function NamePart(t: nat): string
  {
    Hyphenate(Iso(t) + "Z")
  }

  /** The file name layout: prefix, area, '_', start, '_', end, suffix. */
  function Layout(stem: string, a: string, b: string): string
  {
    "../data/" + stem + "_" + a + "_" + b + "_pixels.csv"
  }

  /** `xs` is `ys` with some entries deleted, the rest kept in order. */
  predicate Subsequence<T(==)>(xs: seq<T>, ys: seq<T>)
  {
    if ys == [] then xs == []
    else
      (xs != [] && xs[|xs| - 1] == ys[|ys| - 1] && Subsequence(xs[..|xs| - 1], ys[..|ys| - 1]))
      || Subsequence(xs, ys[..|ys| - 1])
  }

  /** The file names the day loop visits, in order: one per day from start
      to end. */
  function DayFiles(areaPath: string, start: nat, end: nat): seq<string>
    decreases end + SecondsPerDay - start
  {
    if start > end then [] else [CsvName(areaPath, start)] + DayFiles(areaPath, start + SecondsPerDay, end)
  }

  /** One file per visited day, the k-th named after the k-th day. */
  lemma {:induction false} DayFilesDays(areaPath: string, start: nat, end: nat)
    ensures |DayFiles(areaPath, start, end)| == |Days(start, end)|
    ensures forall k :: 0 <= k < |Days(start, end)| ==>
              DayFiles(areaPath, start, end)[k] == CsvName(areaPath, Days(start, end)[k])
    decreases end + SecondsPerDay - start
  {
    if start <= end {
      var next := start + SecondsPerDay;
      DayFilesDays(areaPath, next, end);
      var fs, ds := DayFiles(areaPath, start, end), Days(start, end);
      assert fs == [CsvName(areaPath, start)] + DayFiles(areaPath, next, end);
      assert ds == [start] + Days(next, end);
      forall k | 0 < k < |ds|
        ensures fs[k] == CsvName(areaPath, ds[k])
      {
        assert fs[k] == DayFiles(areaPath, next, end)[k - 1];
        assert ds[k] == Days(next, end)[k - 1];
      }
    }
  }
  /** Each part of a laid-out name sits at a fixed offset, so the name
      determines its area, start and end parts. */
  lemma LayoutParts(stem: string, a: string, b: string)
    ensures var name := Layout(stem, a, b);
            && |name| == 21 + |stem| + |a| + |b|
            && name[..8] == "../data/"
            && name[8..8 + |stem|] == stem
            && name[8 + |stem|] == '_'
            && name[9 + |stem|..9 + |stem| + |a|] == a
            && name[9 + |stem| + |a|] == '_'
            && name[10 + |stem| + |a|..10 + |stem| + |a| + |b|] == b
            && name[10 + |stem| + |a| + |b|..] == "_pixels.csv"
  {
    var p1 := "../data/" + stem + "_";
    var p2 := p1 + a + "_";
    var p3 := p2 + b;
    var name := p3 + "_pixels.csv";
    assert name == Layout(stem, a, b);
    assert name[..|p3|] == p3;
    assert p3[..|p2|] == p2;
    assert p2[..|p1|] == p1;
  }

  /** A piece of the file name pattern. */
  datatype Piece = Directory | Area | Underscore | DayStart | DayFinish | Suffix

  /** `../data/<area>_<day start>_<day end>_pixels.csv`. */
  const NamePattern: seq<Piece> := [Directory, Area, Underscore, DayStart, Underscore, DayFinish, Suffix]

  /** The text a piece stands for, for a polygon path and a day. */
  function PieceText(p: Piece, areaPath: string, t: nat): string
  {
    match p
    case Directory => "../data/"
    case Area => AreaStem(areaPath)
    case Underscore => "_"
    case DayStart => NamePart(t)
    case DayFinish => NamePart(DayEnd(t))
    case Suffix => "_pixels.csv"
  }

  /** A pattern filled in, piece by piece. */
  function Fill(pattern: seq<Piece>, areaPath: string, t: nat): string
  {
    if pattern == [] then [] else PieceText(pattern[0], areaPath, t) + Fill(pattern[1..], areaPath, t)
  }

  /** The per-day tile file name. */
  function CsvName(areaPath: string, t: nat): string
  {
    Fill(NamePattern, areaPath, t)
  }

  /** A seven-piece pattern fills in as its pieces' texts, one after the other. */
  lemma FillSeven(p: seq<Piece>, areaPath: string, t: nat)
    requires |p| == 7
    ensures Fill(p, areaPath, t) ==
      PieceText(p[0], areaPath, t) + (PieceText(p[1], areaPath, t) + (PieceText(p[2], areaPath, t) +
      (PieceText(p[3], areaPath, t) + (PieceText(p[4], areaPath, t) + (PieceText(p[5], areaPath, t) +
      PieceText(p[6], areaPath, t))))))
  {
    var f6 := Fill(p[6..], areaPath, t);
    assert f6 == PieceText(p[6], areaPath, t) by {
      assert p[6..][0] == p[6] && p[6..][1..] == [];
      assert Fill([], areaPath, t) == [];
      assert PieceText(p[6], areaPath, t) + [] == PieceText(p[6], areaPath, t);
    }
    var f5 := Fill(p[5..], areaPath, t);
    assert f5 == PieceText(p[5], areaPath, t) + f6 by { assert p[5..][1..] == p[6..]; }
    var f4 := Fill(p[4..], areaPath, t);
    assert f4 == PieceText(p[4], areaPath, t) + f5 by { assert p[4..][1..] == p[5..]; }
    var f3 := Fill(p[3..], areaPath, t);
    assert f3 == PieceText(p[3], areaPath, t) + f4 by { assert p[3..][1..] == p[4..]; }
    var f2 := Fill(p[2..], areaPath, t);
    assert f2 == PieceText(p[2], areaPath, t) + f3 by { assert p[2..][1..] == p[3..]; }
    var f1 := Fill(p[1..], areaPath, t);
    assert f1 == PieceText(p[1], areaPath, t) + f2 by { assert p[1..][1..] == p[2..]; }
  }

  /** The file name is the area, start and end parts laid out between the
      fixed texts. */
  lemma CsvNameLayout(areaPath: string, t: nat)
    ensures CsvName(areaPath, t) == Layout(AreaStem(areaPath), NamePart(t), NamePart(DayEnd(t)))
  {
    FillSeven(NamePattern, areaPath, t);
    LayoutNested(AreaStem(areaPath), NamePart(t), NamePart(DayEnd(t)));
  }

  /** The layout, nested from the right. */
  lemma LayoutNested(stem: string, a: string, b: string)
    ensures Layout(stem, a, b) == "../data/" + (stem + ("_" + (a + ("_" + (b + "_pixels.csv")))))
  {
  }

  /** A file name splits back into its area, day start and day end parts;
      neither date part contains ':' and the area contains no '/' or '.'. */
  lemma CsvNameParts(areaPath: string, t: nat)
    ensures var stem := AreaStem(areaPath);
            var a, b := NamePart(t), NamePart(DayEnd(t));
            var name := CsvName(areaPath, t);
            && |name| == 21 + |stem| + |a| + |b|
            && name[..8] == "../data/"
            && name[8..8 + |stem|] == stem
            && name[8 + |stem|] == '_'
            && name[9 + |stem|..9 + |stem| + |a|] == a
            && name[9 + |stem| + |a|] == '_'
            && name[10 + |stem| + |a|..10 + |stem| + |a| + |b|] == b
            && name[10 + |stem| + |a| + |b|..] == "_pixels.csv"
            && ':' !in a && ':' !in b
            && '/' !in stem && '.' !in stem
  {
    CsvNameLayout(areaPath, t);
    HyphenateSpec(Iso(t) + "Z");
    HyphenateSpec(Iso(DayEnd(t)) + "Z");
    LayoutParts(AreaStem(areaPath), NamePart(t), NamePart(DayEnd(t)));
  }
}
