/** Calendar times, their text, and the order the scheduler reads off the text.

    A time is a number of seconds since 1970-01-01 in one location. `FromUnix` splits it into calendar fields and
    `Format` writes them as "YYYY-MM-DD hh:mm:ss". */
module CivilTime {

  datatype Civil = Civil(year: nat, month: nat, day: nat, hour: nat, minute: nat, second: nat)

  // ---- The calendar ----

  predicate Leap(y: nat) {
    y % 4 == 0 && (y % 100 != 0 || y % 400 == 0)
  }

  function YearLength(y: nat): nat {
    if Leap(y) then 366 else 365
  }

  function MonthLength(y: nat, m: nat): nat {
    if m == 2 then (if Leap(y) then 29 else 28)
    else if m in {4, 6, 9, 11} then 30
    else 31
  }

  /** Days from the start of year 0 to the start of year `y`. */
  function DaysBeforeYear(y: nat): nat {
    if y == 0 then 0 else DaysBeforeYear(y - 1) + YearLength(y - 1)
  }

  /** Days from the start of year `y` to the start of its month `m`. */
  function DaysBeforeMonth(y: nat, m: nat): nat
    requires 1 <= m
  {
    if m == 1 then 0 else DaysBeforeMonth(y, m - 1) + MonthLength(y, m - 1)
  }

  predicate Valid(c: Civil) {
    c.year <= 9999 && 1 <= c.month <= 12 && 1 <= c.day <= MonthLength(c.year, c.month)
    && c.hour < 24 && c.minute < 60 && c.second < 60
  }

  function DayNumber(c: Civil): nat
    requires Valid(c)
  {
    DaysBeforeYear(c.year) + DaysBeforeMonth(c.year, c.month) + c.day - 1
  }

  /** Seconds since the start of year 0. */
  function Seconds(c: Civil): nat
    requires Valid(c)
  {
    DayNumber(c) * 86400 + c.hour * 3600 + c.minute * 60 + c.second
  }

  /** Seconds from the start of year 0 to 1970-01-01. */
  const EPOCH := 719528 * 86400

  /** Days up to and including the leap days of `y` and of all years before it, by the calendar's rule. */
  function YearFormula(y: int): int {
    365 * y + y / 4 - y / 100 + y / 400
  }

  lemma Fourths(y: int)
    ensures y / 4 == (y - 1) / 4 + (if y % 4 == 0 then 1 else 0)
  {
  }

  lemma Centuries(y: int)
    ensures y / 100 == (y - 1) / 100 + (if y % 100 == 0 then 1 else 0)
  {
  }

  lemma FourthCenturies(y: int)
    ensures y / 400 == (y - 1) / 400 + (if y % 400 == 0 then 1 else 0)
  {
  }

  lemma LeapCases(y: nat)
    ensures Leap(y) <==> ((y % 4 == 0) != (y % 100 == 0)) != (y % 400 == 0)
  {
    var k, r := y / 400, y % 400;
    assert y % 4 == r % 4 && y % 100 == r % 100;
  }

  /** The formula counts one more day in a leap year. */
  lemma YearFormulaStep(y: nat)
    ensures YearFormula(y) == YearFormula(y - 1) + 365 + (if Leap(y) then 1 else 0)
  {
    Fourths(y);
    Centuries(y);
    FourthCenturies(y);
    LeapCases(y);
  }

  lemma {:induction false} DaysToYear(y: nat)
    ensures DaysBeforeYear(y) == YearFormula(y - 1) + 366
  {
    if y > 0 {
      DaysToYear(y - 1);
      YearFormulaStep(y - 1);
    }
  }

  lemma DaysBeforeMonthClosed(y: nat)
    ensures DaysBeforeMonth(y, 13) == YearLength(y)
  {
    var leap := if Leap(y) then 1 else 0;
    assert DaysBeforeMonth(y, 2) == 31;
    assert DaysBeforeMonth(y, 3) == 59 + leap;
    assert DaysBeforeMonth(y, 4) == 90 + leap;
    assert DaysBeforeMonth(y, 5) == 120 + leap;
    assert DaysBeforeMonth(y, 6) == 151 + leap;
    assert DaysBeforeMonth(y, 7) == 181 + leap;
    assert DaysBeforeMonth(y, 8) == 212 + leap;
    assert DaysBeforeMonth(y, 9) == 243 + leap;
    assert DaysBeforeMonth(y, 10) == 273 + leap;
    assert DaysBeforeMonth(y, 11) == 304 + leap;
    assert DaysBeforeMonth(y, 12) == 334 + leap;
  }

  lemma DaysToMonth(y: nat, m: nat)
    requires 1 <= m <= 12
    ensures DaysBeforeMonth(y, m) ==
            if m <= 2 then 31 * (m - 1) else 59 + (if Leap(y) then 1 else 0) + (153 * (m - 3) + 2) / 5
  {
    DaysBeforeMonthClosed(y);
    if m > 6 { assert DaysBeforeMonth(y, 7) == 181 + (if Leap(y) then 1 else 0); }
  }

  /** The calendar against a formula without tables: years counted from March, so that the leap day comes last. */
  lemma DayNumberClosed(c: Civil)
    requires Valid(c)
    ensures var early := c.month <= 2;
            DayNumber(c) == YearFormula(if early then c.year - 1 else c.year)
                            + (153 * (if early then c.month + 9 else c.month - 3) + 2) / 5 + c.day + 59
  {
    DaysToYear(c.year);
    YearFormulaStep(c.year);
    DaysToMonth(c.year, c.month);
    if c.month <= 2 { assert (153 * (c.month + 9) + 2) / 5 == 306 + 31 * (c.month - 1); }
  }

  lemma {:induction false} YearsGrow(a: nat, b: nat)
    requires a < b
    ensures DaysBeforeYear(a) + YearLength(a) <= DaysBeforeYear(b)
    decreases b
  {
    if a + 1 < b { YearsGrow(a, b - 1); }
  }

  lemma {:induction false} MonthsGrow(y: nat, a: nat, b: nat)
    requires 1 <= a < b
    ensures DaysBeforeMonth(y, a) + MonthLength(y, a) <= DaysBeforeMonth(y, b)
    decreases b
  {
    if a + 1 < b { MonthsGrow(y, a, b - 1); }
  }

  // ---- Calendar order ----

  /** Field by field, most significant first. */
  predicate Before(a: Civil, b: Civil) {
    if a.year != b.year then a.year < b.year
    else if a.month != b.month then a.month < b.month
    else if a.day != b.day then a.day < b.day
    else if a.hour != b.hour then a.hour < b.hour
    else if a.minute != b.minute then a.minute < b.minute
    else a.second < b.second
  }

  lemma DayInYear(c: Civil)
    requires Valid(c)
    ensures DaysBeforeMonth(c.year, c.month) + c.day <= YearLength(c.year)
  {
    DaysBeforeMonthClosed(c.year);
    MonthsGrow(c.year, c.month, 13);
  }

  lemma BeforeMeansFewerSeconds(a: Civil, b: Civil)
    requires Valid(a) && Valid(b) && Before(a, b)
    ensures Seconds(a) < Seconds(b)
  {
    DayInYear(a);
    if a.year != b.year {
      YearsGrow(a.year, b.year);
    } else if a.month != b.month {
      MonthsGrow(a.year, a.month, b.month);
    }
  }

  /** The order of the fields is the order of the seconds. */
  lemma BeforeIsChronological(a: Civil, b: Civil)
    requires Valid(a) && Valid(b)
    ensures Before(a, b) <==> Seconds(a) < Seconds(b)
  {
    if Before(a, b) { BeforeMeansFewerSeconds(a, b); }
    else if a != b { BeforeMeansFewerSeconds(b, a); }
  }

  // ---- Splitting seconds into fields ----

  /** Times the four-digit layout can write: years 0 to 9999. */
  predicate InRange(t: int) {
    0 <= t + EPOCH < 3652425 * 86400
  }

  function SplitYear(y: nat, days: nat): (r: (nat, nat))
    ensures r.1 < YearLength(r.0) && DaysBeforeYear(r.0) + r.1 == DaysBeforeYear(y) + days && y <= r.0
    decreases days
  {
    if days < YearLength(y) then (y, days) else SplitYear(y + 1, days - YearLength(y))
  }

  function SplitMonth(y: nat, m: nat, days: nat): (r: (nat, nat))
    requires 1 <= m <= 12 && DaysBeforeMonth(y, m) + days < DaysBeforeMonth(y, 13)
    ensures 1 <= r.0 <= 12 && r.1 < MonthLength(y, r.0)
    ensures DaysBeforeMonth(y, r.0) + r.1 == DaysBeforeMonth(y, m) + days
    decreases 12 - m
  {
    if days < MonthLength(y, m) then (m, days)
    else
      assert DaysBeforeMonth(y, 13) == DaysBeforeMonth(y, 12) + MonthLength(y, 12);
      SplitMonth(y, m + 1, days - MonthLength(y, m))
  }

  function FromUnix(t: int): (c: Civil)
    requires InRange(t)
    ensures Valid(c) && Seconds(c) - EPOCH == t
  {
    var n := t + EPOCH;
    var (y, dayOfYear) := SplitYear(0, n / 86400);
    DaysBeforeMonthClosed(y);
    var (m, dayOfMonth) := SplitMonth(y, 1, dayOfYear);
    var rest := n % 86400;
    var c := Civil(y, m, dayOfMonth + 1, rest / 3600, rest % 3600 / 60, rest % 60);
    assert y <= 9999 by {
      if y > 9999 {
        DaysToYear(10000);
        if y > 10000 { YearsGrow(10000, y); }
      }
    }
    c
  }

  function ToUnix(c: Civil): int
    requires Valid(c)
  {
    Seconds(c) - EPOCH
  }

  lemma ToUnixInRange(c: Civil)
    requires Valid(c)
    ensures InRange(ToUnix(c))
  {
    DayInYear(c);
    DaysToYear(10000);
    YearsGrow(c.year, 10000);
    assert DayNumber(c) < 3652425;
  }

  lemma SameSecondsSameTime(a: Civil, b: Civil)
    requires Valid(a) && Valid(b) && Seconds(a) == Seconds(b)
    ensures a == b
  {
    BeforeIsChronological(a, b);
    BeforeIsChronological(b, a);
  }

  /** Splitting and recombining are inverse to each other. */
  lemma ToUnixIsInverse(c: Civil)
    requires Valid(c)
    ensures InRange(ToUnix(c)) && FromUnix(ToUnix(c)) == c
  {
    ToUnixInRange(c);
    SameSecondsSameTime(FromUnix(ToUnix(c)), c);
  }

  lemma YearSplitsDays(c: Civil, y: nat)
    requires Valid(c)
    ensures c.year < y <==> DayNumber(c) < DaysBeforeYear(y)
  {
    DayInYear(c);
    if c.year < y { YearsGrow(c.year, y); }
    else if c.year > y { YearsGrow(y, c.year); }
  }

  /** The year test of the scheduler, read on seconds. */
  lemma YearAtMost1970(t: int)
    requires InRange(t)
    ensures FromUnix(t).year <= 1970 <==> t < 31536000
  {
    var c := FromUnix(t);
    assert DaysBeforeYear(1971) == 719893 by { DaysToYear(1971); }
    YearSplitsDays(c, 1971);
    DaySplitsSeconds(c, 719893);
  }

  lemma DaySplitsSeconds(c: Civil, days: nat)
    requires Valid(c)
    ensures DayNumber(c) < days <==> Seconds(c) < days * 86400
  {
    assert c.hour * 3600 + c.minute * 60 + c.second < 86400;
  }

  // ---- Text ----

  function Digit(d: nat): char
    requires d < 10
  {
    '0' + d as char
  }

  function Pad2(x: nat): string
    requires x < 100
  {
    [Digit(x / 10), Digit(x % 10)]
  }

  function Pad4(x: nat): string
    requires x < 10000
  {
    Pad2(x / 100) + Pad2(x % 100)
  }

  /** One or two digits, without padding. */
  function Plain(x: nat): string
    requires x < 100
  {
    if x < 10 then [Digit(x)] else Pad2(x)
  }

  function Format(c: Civil): string
    requires Valid(c)
  {
    Pad4(c.year) + ("-" + (Pad2(c.month) + ("-" + (Pad2(c.day) + (" " +
      (Pad2(c.hour) + (":" + (Pad2(c.minute) + (":" + Pad2(c.second))))))))))
  }

  /** String order, by character code. */
  predicate TextLess(s: string, t: string)
    decreases |s|
  {
    t != "" && (s == "" || s[0] < t[0] || (s[0] == t[0] && TextLess(s[1..], t[1..])))
  }

  lemma {:induction false} TextLessOfParts(a: string, a': string, b: string, b': string)
    requires |a| == |b|
    ensures TextLess(a + a', b + b') <==> TextLess(a, b) || (a == b && TextLess(a', b'))
    decreases |a|
  {
    if a == "" {
      assert a + a' == a' && b + b' == b';
    } else {
      assert (a + a')[1..] == a[1..] + a' && (b + b')[1..] == b[1..] + b';
      assert a == [a[0]] + a[1..] && b == [b[0]] + b[1..];
      TextLessOfParts(a[1..], a', b[1..], b');
    }
  }

  lemma Pad2Order(x: nat, y: nat)
    requires x < 100 && y < 100
    ensures TextLess(Pad2(x), Pad2(y)) <==> x < y
    ensures Pad2(x) == Pad2(y) <==> x == y
  {
    var s, t := Pad2(x), Pad2(y);
    assert s[0] == Digit(x / 10) && s[1] == Digit(x % 10) && t[0] == Digit(y / 10) && t[1] == Digit(y % 10);
    assert s[1..] == [s[1]] && t[1..] == [t[1]];
    assert TextLess(s[1..], t[1..]) <==> s[1] < t[1];
    assert TextLess(s, t) <==> s[0] < t[0] || (s[0] == t[0] && TextLess(s[1..], t[1..]));
  }

  lemma Pad4Order(x: nat, y: nat)
    requires x < 10000 && y < 10000
    ensures TextLess(Pad4(x), Pad4(y)) <==> x < y
    ensures Pad4(x) == Pad4(y) <==> x == y
  {
    TextLessOfParts(Pad2(x / 100), Pad2(x % 100), Pad2(y / 100), Pad2(y % 100));
    Pad2Order(x / 100, y / 100);
    Pad2Order(x % 100, y % 100);
    assert Pad4(x)[..2] == Pad2(x / 100) && Pad4(y)[..2] == Pad2(y / 100);
    assert Pad4(x)[2..] == Pad2(x % 100) && Pad4(y)[2..] == Pad2(y % 100);
  }

  lemma TextLessAfter(sep: string, s: string, t: string)
    ensures TextLess(sep + s, sep + t) <==> TextLess(s, t)
  {
    TextLessOfParts(sep, s, sep, t);
    TextIrreflexive(sep);
  }

  lemma TextIrreflexive(s: string)
    ensures !TextLess(s, s)
  {
  }

  /** One two-digit field, a separator, and the rest. */
  lemma FieldOrder(x: nat, y: nat, sep: string, s: string, t: string)
    requires x < 100 && y < 100
    ensures TextLess(Pad2(x) + (sep + s), Pad2(y) + (sep + t)) <==> x < y || (x == y && TextLess(s, t))
  {
    TextLessOfParts(Pad2(x), sep + s, Pad2(y), sep + t);
    Pad2Order(x, y);
    TextLessAfter(sep, s, t);
  }

  function Clock(c: Civil): string
    requires Valid(c)
  {
    Pad2(c.hour) + (":" + (Pad2(c.minute) + (":" + Pad2(c.second))))
  }

  lemma ClockOrder(a: Civil, b: Civil)
    requires Valid(a) && Valid(b)
    ensures TextLess(Clock(a), Clock(b)) <==>
            a.hour < b.hour || (a.hour == b.hour &&
              (a.minute < b.minute || (a.minute == b.minute && a.second < b.second)))
  {
    FieldOrder(a.hour, b.hour, ":", Pad2(a.minute) + (":" + Pad2(a.second)), Pad2(b.minute) + (":" + Pad2(b.second)));
    FieldOrder(a.minute, b.minute, ":", Pad2(a.second), Pad2(b.second));
    Pad2Order(a.second, b.second);
  }

  function Date(c: Civil, rest: string): string
    requires Valid(c)
  {
    Pad2(c.month) + ("-" + (Pad2(c.day) + (" " + rest)))
  }

  lemma DateOrder(a: Civil, b: Civil, s: string, t: string)
    requires Valid(a) && Valid(b)
    ensures TextLess(Date(a, s), Date(b, t)) <==>
            a.month < b.month || (a.month == b.month &&
              (a.day < b.day || (a.day == b.day && TextLess(s, t))))
  {
    FieldOrder(a.month, b.month, "-", Pad2(a.day) + (" " + s), Pad2(b.day) + (" " + t));
    FieldOrder(a.day, b.day, " ", s, t);
  }

  /** Comparing the text of two times of years 0 to 9999 compares the times. */
  lemma TextOrderIsChronological(a: Civil, b: Civil)
    requires Valid(a) && Valid(b)
    ensures TextLess(Format(a), Format(b)) <==> Seconds(a) < Seconds(b)
  {
    assert Format(a) == Pad4(a.year) + ("-" + Date(a, Clock(a)));
    assert Format(b) == Pad4(b.year) + ("-" + Date(b, Clock(b)));
    TextLessOfParts(Pad4(a.year), "-" + Date(a, Clock(a)), Pad4(b.year), "-" + Date(b, Clock(b)));
    Pad4Order(a.year, b.year);
    TextLessAfter("-", Date(a, Clock(a)), Date(b, Clock(b)));
    DateOrder(a, b, Clock(a), Clock(b));
    ClockOrder(a, b);
    BeforeIsChronological(a, b);
  }

  /** The scheduler's due test on text is the comparison of the two times. */
  lemma DueTestIsComparison(now: int, date: int)
    requires InRange(now) && InRange(date)
    ensures !TextLess(Format(FromUnix(now)), Format(FromUnix(date))) <==> now >= date
  {
    TextOrderIsChronological(FromUnix(now), FromUnix(date));
  }

  // ---- The layout "2020-08-31" ----

  /** The part of the stamp before the hour. */
  function DayPart(c: Civil): string
    requires Valid(c)
  {
    Plain(c.day) + Pad2(c.day) + "0-08-"
  }

  /** The hour as the layout writes it. */
  function Hour12(c: Civil): nat {
    if c.hour % 12 == 0 then 12 else c.hour % 12
  }

  /** What the layout "2020-08-31" writes: day, padded day, "0-08-", twelve-hour hour, month. The year and the
      minutes do not occur in it. */
  function Stamp(c: Civil): string
    requires Valid(c)
  {
    DayPart(c) + (Plain(Hour12(c)) + Plain(c.month))
  }

  /** The comparison that decides whether a project with several milestones has reached the last one. */
  predicate SameStamp(s: int, t: int) {
    s == t || (InRange(s) && InRange(t) && Stamp(FromUnix(s)) == Stamp(FromUnix(t)))
  }

  /** Hours and months whose digits run together to the same text. */
  predicate SameDigits(h: nat, m: nat, h': nat, m': nat) {
    || (h == h' && m == m')
    || (h == 1 && m == 11 && h' == 11 && m' == 1) || (h == 11 && m == 1 && h' == 1 && m' == 11)
    || (h == 1 && m == 12 && h' == 11 && m' == 2) || (h == 11 && m == 2 && h' == 1 && m' == 12)
  }

  lemma PlainDigits(x: nat)
    requires x < 100
    ensures |Plain(x)| == if x < 10 then 1 else 2
    ensures x < 10 ==> Plain(x)[0] == Digit(x)
    ensures x >= 10 ==> Plain(x)[0] == Digit(x / 10) && Plain(x)[1] == Digit(x % 10)
  {
  }

  lemma RunTogether(h: nat, m: nat, h': nat, m': nat)
    requires 1 <= h <= 12 && 1 <= m <= 12 && 1 <= h' <= 12 && 1 <= m' <= 12
    ensures Plain(h) + Plain(m) == Plain(h') + Plain(m') <==> SameDigits(h, m, h', m')
  {
    var s, t := Plain(h) + Plain(m), Plain(h') + Plain(m');
    PlainDigits(h);
    PlainDigits(m);
    PlainDigits(h');
    PlainDigits(m');
    if s == t {
      assert |s| == |t| && s[0] == t[0] && s[1] == t[1];
      if |s| == 3 { assert s[2] == t[2]; }
      if |s| == 4 { assert s[2] == t[2] && s[3] == t[3]; }
    }
  }

  lemma DayPartTellsTheDay(a: Civil, b: Civil, s: string, t: string)
    requires Valid(a) && Valid(b) && DayPart(a) + s == DayPart(b) + t
    ensures a.day == b.day && s == t
  {
    var x, y := DayPart(a) + s, DayPart(b) + t;
    PlainDigits(a.day);
    PlainDigits(b.day);
    assert x[4] == if a.day < 10 then '-' else '0';
    assert y[4] == if b.day < 10 then '-' else '0';
    assert a.day < 10 <==> b.day < 10;
    assert x[0] == y[0] && x[1] == y[1];
    assert x[|DayPart(a)|..] == s && y[|DayPart(b)|..] == t;
  }

  /** Exactly when two stamps agree: on the same day of the month, with the same twelve-hour hour and month or one of
      two pairs whose digits run together. The year, the half of the day, the minutes and the seconds never matter. */
  lemma StampsAgreeExactly(a: Civil, b: Civil)
    requires Valid(a) && Valid(b)
    ensures Stamp(a) == Stamp(b) <==> a.day == b.day && SameDigits(Hour12(a), a.month, Hour12(b), b.month)
  {
    var s, t := Plain(Hour12(a)) + Plain(a.month), Plain(Hour12(b)) + Plain(b.month);
    assert Stamp(a) == DayPart(a) + s && Stamp(b) == DayPart(b) + t;
    RunTogether(Hour12(a), a.month, Hour12(b), b.month);
    if Stamp(a) == Stamp(b) { DayPartTellsTheDay(a, b, s, t); }
  }

  /** The stamp confuses times that differ: even 1 o'clock in December with 11 o'clock in February. */
  lemma StampIsLossy()
    ensures exists a, b ::
              Valid(a) && Valid(b) && Stamp(a) == Stamp(b) && a.year != b.year && a.month != b.month && a.hour != b.hour
  {
    var a, b := Civil(2021, 12, 5, 1, 0, 0), Civil(2022, 2, 5, 11, 0, 0);
    assert Valid(a) && Valid(b);
    assert Stamp(a) == "5050-08-112";
    assert Stamp(b) == "5050-08-112";
  }
}
