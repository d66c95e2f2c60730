/** Gregorian calendar dates as Python's datetime.date sees them: years 1 to
    9999, the "%Y-%m-%d" text form read by strptime and written by
    strftime, day arithmetic (timedelta(days=...)) and calendar.monthrange. */
module Dates {
  import opened Strings

  datatype Date = Date(year: int, month: int, day: int)

  const MaxYear := 9999

  predicate IsLeapYear(y: int) {
    y % 4 == 0 && (y % 100 != 0 || y % 400 == 0)
  }

  /** calendar.monthrange(y, m)[1]. */
  function DaysInMonth(y: int, m: int): (n: int)
    requires 1 <= m <= 12
    ensures 28 <= n <= 31
    ensures n == 28 <==> m == 2 && !IsLeapYear(y)
    ensures n == 29 <==> m == 2 && IsLeapYear(y)
    ensures n == 30 <==> m == 4 || m == 6 || m == 9 || m == 11
  {
    if m == 2 then (if IsLeapYear(y) then 29 else 28)
    else if m == 4 || m == 6 || m == 9 || m == 11 then 30
    else 31
  }

  /** A day that exists in the proleptic Gregorian calendar, with no upper
      bound on the year. */
  predicate IsCalendarDay(d: Date) {
    1 <= d.year && 1 <= d.month <= 12 && 1 <= d.day <= DaysInMonth(d.year, d.month)
  }

  /** A value datetime can represent. */
  predicate Valid(d: Date) {
    IsCalendarDay(d) && d.year <= MaxYear
  }

  /** a <= b in datetime's ordering. */
  predicate NotAfter(a: Date, b: Date) {
    a.year < b.year || (a.year == b.year && (a.month < b.month || (a.month == b.month && a.day <= b.day)))
  }

  /** Both dates lie in the same calendar month ("%Y-%m" agrees). */
  predicate SameMonth(a: Date, b: Date) {
    a.year == b.year && a.month == b.month
  }

  /** d + timedelta(days=1). */
  function AddOneDay(d: Date): (r: Date)
    requires IsCalendarDay(d)
    ensures IsCalendarDay(r)
    ensures NotAfter(d, r) && r != d
  {
    if d.day < DaysInMonth(d.year, d.month) then d.(day := d.day + 1)
    else if d.month < 12 then Date(d.year, d.month + 1, 1)
    else Date(d.year + 1, 1, 1)
  }

  /** d + timedelta(days=k). */
  function AddDays(d: Date, k: nat): (r: Date)
    requires IsCalendarDay(d)
    ensures IsCalendarDay(r)
    decreases k
  {
    if k == 0 then d else AddDays(AddOneDay(d), k - 1)
  }

  /** The first day of the month after d's. */
  function FirstOfNextMonth(d: Date): Date {
    if d.month == 12 then Date(d.year + 1, 1, 1) else Date(d.year, d.month + 1, 1)
  }

  /** (d.replace(day=28) + timedelta(days=4)).replace(day=1): the first day of
      the following month, December included. */
  function NextMonthStart(d: Date): (r: Date)
    requires IsCalendarDay(d)
    ensures IsCalendarDay(r) && r.day == 1
  {
    AddDays(d.(day := 28), 4).(day := 1)
  }

  lemma NextMonthStartIsFirstOfNextMonth(d: Date)
    requires IsCalendarDay(d)
    ensures NextMonthStart(d) == FirstOfNextMonth(d)
    ensures NotAfter(d, NextMonthStart(d)) && !SameMonth(d, NextMonthStart(d))
  {
    var n := DaysInMonth(d.year, d.month);
    var d0 := d.(day := 28);
    var d1 := AddOneDay(d0);
    var d2 := AddOneDay(d1);
    var d3 := AddOneDay(d2);
    var d4 := AddOneDay(d3);
    assert AddDays(d0, 4) == AddDays(d1, 3) == AddDays(d2, 2) == AddDays(d3, 1) == d4;
    var f := FirstOfNextMonth(d);
    if n == 28 {
      assert d1 == f && d4 == f.(day := 4);
    } else if n == 29 {
      assert d2 == f && d4 == f.(day := 3);
    } else if n == 30 {
      assert d3 == f && d4 == f.(day := 2);
    } else {
      assert d4 == f;
    }
  }

  /** calendar.monthrange(...)[1] // 2: the last day of the first half. */
  function MidMonth(d: Date): int
    requires IsCalendarDay(d)
  {
    DaysInMonth(d.year, d.month) / 2
  }

  /** current.replace(day=mid_month) + timedelta(days=1). */
  function FirstHalfEnd(d: Date): Date
    requires IsCalendarDay(d)
  {
    AddOneDay(d.(day := MidMonth(d)))
  }

  /** The first half ends on day mid + 1 (the 15th, or the 16th in a 31- or
      30-day month) of the same month. */
  lemma FirstHalfEndDay(d: Date)
    requires IsCalendarDay(d)
    ensures FirstHalfEnd(d) == d.(day := MidMonth(d) + 1)
    ensures 15 <= FirstHalfEnd(d).day <= 16
  {
  }

  // ---- decimal text ----

  predicate IsDigit(c: char) {
    '0' <= c <= '9'
  }

  predicate AllDigits(s: string) {
    forall i :: 0 <= i < |s| ==> IsDigit(s[i])
  }

  function DigitChar(n: nat): char
    requires n < 10
  {
    ('0' as int + n) as char
  }

  /** The value of a string of decimal digits. */
  function DigitsValue(s: string): nat
    requires AllDigits(s)
    decreases |s|
  {
    if |s| == 0 then 0
    else DigitsValue(s[..|s| - 1]) * 10 + (s[|s| - 1] as int - '0' as int)
  }

  function Pow10(w: nat): nat {
    if w == 0 then 1 else 10 * Pow10(w - 1)
  }

  /** n written in exactly `w` decimal digits, zero-padded on the left. */
  function Pad(n: nat, w: nat): (r: string)
    ensures |r| == w && AllDigits(r)
    decreases w
  {
    if w == 0 then "" else Pad(n / 10, w - 1) + [DigitChar(n % 10)]
  }

  lemma {:induction false} PadValue(n: nat, w: nat)
    requires n < Pow10(w)
    ensures DigitsValue(Pad(n, w)) == n
    decreases w
  {
    if w > 0 {
      var p := Pad(n, w);
      assert p[..w - 1] == Pad(n / 10, w - 1);
      PadValue(n / 10, w - 1);
    }
  }

  /** strftime("%Y-%m-%d"). */
  function Format(d: Date): string
    requires Valid(d)
  {
    Pad(d.year, 4) + "-" + Pad(d.month, 2) + "-" + Pad(d.day, 2)
  }

  /** datetime.strptime(s, "%Y-%m-%d"): a four-digit year, a one- or two-digit
      month and day, each in range; anything else is the ValueError case. */
  function Parse(s: string): (r: Option<Date>)
    ensures r.Some? ==> Valid(r.value)
  {
    var parts := Split(s, '-');
    if |parts| != 3 then None
    else if !(|parts[0]| == 4 && AllDigits(parts[0])) then None
    else if !(1 <= |parts[1]| <= 2 && AllDigits(parts[1])) then None
    else if !(1 <= |parts[2]| <= 2 && AllDigits(parts[2])) then None
    else
      var d := Date(DigitsValue(parts[0]), DigitsValue(parts[1]), DigitsValue(parts[2]));
      if Valid(d) then Some(d) else None
  }

  lemma {:induction false} SplitNoSep(a: string, sep: char)
    requires sep !in a
    ensures Split(a, sep) == [a]
    decreases |a|
  {
    if |a| > 0 {
      SplitNoSep(a[1..], sep);
      assert [a[0]] + a[1..] == a;
    }
  }

  lemma {:induction false} SplitAfterPiece(a: string, sep: char, b: string)
    requires sep !in a
    ensures Split(a + [sep] + b, sep) == [a] + Split(b, sep)
    decreases |a|
  {
    if |a| > 0 {
      assert (a + [sep] + b)[1..] == a[1..] + [sep] + b;
      SplitAfterPiece(a[1..], sep, b);
      assert [a[0]] + a[1..] == a;
    } else {
      assert a + [sep] + b == [sep] + b;
    }
  }

  lemma DigitsHaveNoDash(s: string)
    requires AllDigits(s)
    ensures '-' !in s
  {
  }

  /** Reading back what strftime wrote gives the same date. */
  lemma ParseFormat(d: Date)
    requires Valid(d)
    ensures Parse(Format(d)) == Some(d)
  {
    var y, m, dd := Pad(d.year, 4), Pad(d.month, 2), Pad(d.day, 2);
    DigitsHaveNoDash(y);
    DigitsHaveNoDash(m);
    DigitsHaveNoDash(dd);
    SplitNoSep(dd, '-');
    SplitAfterPiece(m, '-', dd);
    assert y + "-" + m + "-" + dd == y + ['-'] + (m + ['-'] + dd);
    SplitAfterPiece(y, '-', m + ['-'] + dd);
    assert Split(Format(d), '-') == [y, m, dd];
    PadValue(d.year, 4);
    PadValue(d.month, 2);
    PadValue(d.day, 2);
  }
}
