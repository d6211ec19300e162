/**
 * Calendar dates as the application handles them: a JavaScript `Date`
 * is reduced to the calendar day it falls on (time of day and time zones
 * are not modelled), and an "Invalid Date" is `None`.  Comparisons with
 * an invalid date are false, as comparisons with NaN are in JavaScript.
 */
module Dates {
  import opened Wrappers
  import opened Text

  datatype Date = Date(year: int, month: int, day: int)

  predicate IsLeap(y: int) {
    (y % 4 == 0 && y % 100 != 0) || y % 400 == 0
  }

  function DaysInMonth(y: int, m: int): (n: int)
    requires 1 <= m <= 12
    ensures 28 <= n <= 31
  {
    if m == 2 then (if IsLeap(y) then 29 else 28)
    else if m == 4 || m == 6 || m == 9 || m == 11 then 30
    else 31
  }

  predicate Valid(d: Date) {
    1 <= d.month <= 12 && 1 <= d.day <= DaysInMonth(d.year, d.month)
  }

  /** A calendar day that exists. */
  type Day = d: Date | Valid(d) witness Date(1970, 1, 1)

  /** A JavaScript date value: `None` is "Invalid Date". */
  type JsDate = Option<Day>

  /** A key that orders valid dates chronologically. */
  function Index(d: Date): int {
    d.year * 416 + d.month * 32 + d.day
  }

  /** Chronological order, lexicographic on (year, month, day). */
  predicate Before(a: Date, b: Date) {
    a.year < b.year || (a.year == b.year && (a.month < b.month || (a.month == b.month && a.day < b.day)))
  }

  lemma IndexOrder(a: Date, b: Date)
    requires Valid(a) && Valid(b)
    ensures Before(a, b) <==> Index(a) < Index(b)
    ensures a == b <==> Index(a) == Index(b)
  {
    if a.year < b.year {
      assert (a.year + 1) * 416 <= b.year * 416;
    } else if b.year < a.year {
      assert (b.year + 1) * 416 <= a.year * 416;
    }
  }

  /** `a < b` on JavaScript dates. */
  predicate Lt(a: JsDate, b: JsDate) {
    a.Some? && b.Some? && Index(a.value) < Index(b.value)
  }

  /** `a <= b` on JavaScript dates. */
  predicate Le(a: JsDate, b: JsDate) {
    a.Some? && b.Some? && Index(a.value) <= Index(b.value)
  }

  /** `setDate(getDate() - 1)`: the previous calendar day. */
  function PrevDay(d: Day): (p: Day)
    ensures Before(p, d) && Index(p) < Index(d)
  {
    if d.day > 1 then Date(d.year, d.month, d.day - 1)
    else if d.month > 1 then Date(d.year, d.month - 1, DaysInMonth(d.year, d.month - 1))
    else Date(d.year - 1, 12, 31)
  }

  /** No valid date lies strictly between a day and the day before it. */
  lemma PrevDayAdjacent(d: Day, e: Day)
    requires Before(PrevDay(d), e)
    ensures !Before(d, e) ==> e == d
  {
  }

  /** The number of calendar days from a to b, both included. */
  function DayCount(a: Day, b: Day): (n: nat)
    decreases Index(b) - Index(a)
  {
    if Index(b) < Index(a) then 0 else 1 + DayCount(a, PrevDay(b))
  }

  /** `setDate(getDate() - n)`: the calendar day n days earlier. */
  function DaysBefore(d: Day, n: nat): (r: Day)
    ensures Index(r) <= Index(d)
    ensures d.year - n <= r.year <= d.year
    decreases n
  {
    if n == 0 then d else DaysBefore(PrevDay(d), n - 1)
  }

  /** Going n days back and counting forward again spans n + 1 days, both ends included. */
  lemma {:induction false} DaysBeforeCount(d: Day, n: nat)
    ensures DayCount(DaysBefore(d, n), d) == n + 1
    decreases n
  {
    if n == 0 {
      assert DayCount(d, PrevDay(d)) == 0;
    } else {
      DaysBeforeCount(PrevDay(d), n - 1);
    }
  }

  function DaysInYear(y: int): int {
    if IsLeap(y) then 366 else 365
  }

  /** Days from 1 January 1970 to 1 January of year y, negative before 1970. */
  function YearStart(y: int): int
    decreases if y >= 1970 then y - 1970 else 1970 - y
  {
    if y == 1970 then 0
    else if y > 1970 then YearStart(y - 1) + DaysInYear(y - 1)
    else YearStart(y + 1) - DaysInYear(y)
  }

  lemma YearStep(y: int)
    ensures YearStart(y) == YearStart(y - 1) + DaysInYear(y - 1)
  {
  }

  /** Days from 1 January to the first of month m. */
  function MonthStart(y: int, m: int): int
    requires 1 <= m <= 12
  {
    if m == 1 then 0 else MonthStart(y, m - 1) + DaysInMonth(y, m - 1)
  }

  lemma YearEnd(y: int)
    ensures MonthStart(y, 12) + 31 == DaysInYear(y)
  {
    var f := if IsLeap(y) then 1 else 0;
    assert MonthStart(y, 2) == 31;
    assert MonthStart(y, 3) == 59 + f;
    assert MonthStart(y, 4) == 90 + f;
    assert MonthStart(y, 5) == 120 + f;
    assert MonthStart(y, 6) == 151 + f;
    assert MonthStart(y, 7) == 181 + f;
    assert MonthStart(y, 8) == 212 + f;
    assert MonthStart(y, 9) == 243 + f;
    assert MonthStart(y, 10) == 273 + f;
    assert MonthStart(y, 11) == 304 + f;
  }

  /**
   * The day number counted from 1 January 1970, the day `getTime()`
   * divided by a day's milliseconds falls on (time zones not modelled).
   */
  function EpochDay(d: Day): int {
    YearStart(d.year) + MonthStart(d.year, d.month) + d.day - 1
  }

  /** Consecutive calendar days have consecutive day numbers. */
  lemma EpochDayPrev(d: Day)
    ensures EpochDay(PrevDay(d)) == EpochDay(d) - 1
  {
    var p := PrevDay(d);
    if d.day > 1 {
      assert p == Date(d.year, d.month, d.day - 1);
    } else if d.month > 1 {
      assert p == Date(d.year, d.month - 1, DaysInMonth(d.year, d.month - 1));
      assert MonthStart(d.year, d.month) == MonthStart(d.year, d.month - 1) + DaysInMonth(d.year, d.month - 1);
    } else {
      assert p == Date(d.year - 1, 12, 31);
      YearStep(d.year);
      YearEnd(d.year - 1);
    }
  }

  lemma {:induction false} EpochDayBefore(a: Day, b: Day)
    requires Index(a) < Index(b)
    ensures EpochDay(a) < EpochDay(b)
    decreases Index(b) - Index(a)
  {
    var p := PrevDay(b);
    EpochDayPrev(b);
    IndexOrder(p, a);
    IndexOrder(a, b);
    if Before(p, a) {
      PrevDayAdjacent(b, a);
    } else if Index(p) > Index(a) {
      EpochDayBefore(a, p);
    }
  }

  /** Day numbers follow the calendar: earlier days have smaller numbers. */
  lemma EpochDayOrder(a: Day, b: Day)
    ensures Index(a) <= Index(b) <==> EpochDay(a) <= EpochDay(b)
  {
    if Index(a) < Index(b) {
      EpochDayBefore(a, b);
    } else if Index(b) < Index(a) {
      EpochDayBefore(b, a);
    } else {
      IndexOrder(a, b);
    }
  }

  /** `toLocaleDateString('pt-BR')`: DD/MM/YYYY. */
  function FormatDate(d: Date): (s: string)
    ensures '[' !in s && ']' !in s && '\n' !in s
  {
    JoinChars([Pad2(d.day), Pad2(d.month), IntToString(d.year)], "/", '[');
    JoinChars([Pad2(d.day), Pad2(d.month), IntToString(d.year)], "/", ']');
    JoinChars([Pad2(d.day), Pad2(d.month), IntToString(d.year)], "/", '\n');
    Join([Pad2(d.day), Pad2(d.month), IntToString(d.year)], "/")
  }

  /**
   * `new Date("YYYY-MM-DD")` as V8 reads the date-only ISO form: exactly
   * four, two and two digits, a month in 1..12 and a day in 1..31; a day
   * past the end of the month rolls over into the next month.
   */
  function IsoDate(ys: string, ms: string, ds: string): JsDate {
    if |ys| == 4 && |ms| == 2 && |ds| == 2 && AllDigits(ys) && AllDigits(ms) && AllDigits(ds) then
      var y := DigitsValue(ys);
      var m := DigitsValue(ms);
      var d := DigitsValue(ds);
      if 1 <= m <= 12 && 1 <= d <= 31 then Some(Rollover(y, m, d)) else None
    else None
  }

  /** The date `d - 1` days after the first of month m of year y, for d up to 31. */
  function Rollover(y: int, m: int, d: int): (r: Date)
    requires 1 <= m <= 12 && 1 <= d <= 31
    ensures Valid(r)
    ensures d <= DaysInMonth(y, m) ==> r == Date(y, m, d)
  {
    var n := DaysInMonth(y, m);
    if d <= n then Date(y, m, d)
    else if m < 12 then Date(y, m + 1, d - n)
    else Date(y + 1, 1, d - n)
  }

  /**
   * `parseDate(s)`: "DD/MM/YYYY" rearranged into the ISO form; an empty
   * (or missing) string is the current date `now`.
   */
  function ParseDate(s: string, now: Day): JsDate {
    if s == "" then Some(now)
    else
      var parts := Split(s, '/');
      if |parts| < 3 then None
      else IsoDate(parts[2], parts[1], parts[0])
  }

  lemma {:induction false} Pad2Length(n: nat)
    requires n < 100
    ensures |Pad2(n)| == 2
  {
    if n >= 10 {
      assert NatToString(n) == NatToString(n / 10) + [DigitChar(n % 10)];
    }
  }

  lemma YearLength(y: nat)
    requires 1000 <= y <= 9999
    ensures |NatToString(y)| == 4
  {
    assert NatToString(y / 1000) == [DigitChar(y / 1000)];
    assert NatToString(y / 100) == NatToString(y / 1000) + [DigitChar((y / 100) % 10)];
    assert NatToString(y / 10) == NatToString(y / 100) + [DigitChar((y / 10) % 10)];
  }

  /** Three pieces without the separator, joined by it, split back into those pieces. */
  lemma SplitThree(a: string, b: string, c: string, sep: char)
    requires sep !in a && sep !in b && sep !in c
    ensures Split(Join([a, b, c], [sep]), sep) == [a, b, c]
  {
    assert [a, b, c][1..] == [b, c] && [b, c][1..] == [c];
    assert Join([c], [sep]) == c;
    assert Join([b, c], [sep]) == b + [sep] + c;
    assert Join([a, b, c], [sep]) == a + [sep] + Join([b, c], [sep]);
    SplitAt(a, sep, b + [sep] + c);
    SplitAt(b, sep, c);
    SplitNoSep(c, sep);
  }

  /** The padded fields of a valid four-digit-year date read back as that date. */
  lemma IsoOfFields(d: Day)
    requires 1000 <= d.year <= 9999
    ensures IsoDate(IntToString(d.year), Pad2(d.month), Pad2(d.day)) == Some(d)
  {
    Pad2Value(d.day); Pad2Value(d.month); NatToStringValue(d.year);
    Pad2Length(d.day); Pad2Length(d.month); YearLength(d.year);
  }

  /** Formatting a valid four-digit-year date and parsing it back gives the date. */
  lemma ParseFormat(d: Day, now: Day)
    requires 1000 <= d.year <= 9999
    ensures ParseDate(FormatDate(d), now) == Some(d)
  {
    var a, b, c := Pad2(d.day), Pad2(d.month), IntToString(d.year);
    assert '/' !in a && '/' !in b && '/' !in c;
    assert "/" == ['/'];
    SplitThree(a, b, c, '/');
    IsoOfFields(d);
    assert FormatDate(d) != "";
  }

  /**
   * `new Date(text)` on the text of a date field, which is "YYYY-MM-DD"
   * or empty: the ISO form as above; any other text, the empty one
   * included, is an Invalid Date.
   */
  function DateInput(s: string): JsDate {
    var parts := Split(s, '-');
    if |parts| == 3 then IsoDate(parts[0], parts[1], parts[2]) else None
  }

  /** `date.toISOString().split('T')[0]`: YYYY-MM-DD. */
  function IsoText(d: Date): (s: string)
    ensures s != ""
  {
    Join([IntToString(d.year), Pad2(d.month), Pad2(d.day)], "-")
  }

  /** An empty date field reads as an Invalid Date. */
  lemma EmptyDateInput()
    ensures DateInput("") == None
  {
    assert Split("", '-') == [""];
  }

  /** The ISO text of a valid four-digit-year date reads back as that date. */
  lemma DateInputIso(d: Day)
    requires 1000 <= d.year <= 9999
    ensures DateInput(IsoText(d)) == Some(d)
  {
    var a, b, c := IntToString(d.year), Pad2(d.month), Pad2(d.day);
    assert '-' !in a && '-' !in b && '-' !in c by {
      NatToStringValue(d.year);
      Pad2Value(d.month);
      Pad2Value(d.day);
    }
    assert "-" == ['-'];
    SplitThree(a, b, c, '-');
    IsoOfFields(d);
  }
}
