/** Civil dates, their day numbers, and their texts YYYY-MM-DD compared as strings. */
module Dates {
  import opened Common

  datatype Date = Date(year: nat, month: nat, day: nat)

  predicate Leap(year: nat) {
    year % 4 == 0 && (year % 100 != 0 || year % 400 == 0)
  }

  function DaysIn(year: nat, month: nat): nat {
    if month == 2 then (if Leap(year) then 29 else 28)
    else if month == 4 || month == 6 || month == 9 || month == 11 then 30
    else 31
  }

  predicate Valid(d: Date) {
    1 <= d.year && 1 <= d.month <= 12 && 1 <= d.day <= DaysIn(d.year, d.month)
  }

  function Next(d: Date): Date {
    if d.day < DaysIn(d.year, d.month) then d.(day := d.day + 1)
    else if d.month < 12 then Date(d.year, d.month + 1, 1)
    else Date(d.year + 1, 1, 1)
  }

  function Previous(d: Date): Date
    requires Valid(d)
  {
    if d.day > 1 then d.(day := d.day - 1)
    else if d.month > 1 then Date(d.year, d.month - 1, DaysIn(d.year, d.month - 1))
    else Date(d.year - 1, 12, 31)
  }

  // ---- day numbers -------------------------------------------------------------

  function DaysBeforeYear(year: nat): nat {
    if year <= 1 then 0 else DaysBeforeYear(year - 1) + if Leap(year - 1) then 366 else 365
  }

  function DaysBeforeMonth(year: nat, month: nat): nat {
    if month <= 1 then 0 else DaysBeforeMonth(year, month - 1) + DaysIn(year, month - 1)
  }

  /** 0001-01-01 is day 1. */
  function Ordinal(d: Date): nat {
    DaysBeforeYear(d.year) + DaysBeforeMonth(d.year, d.month) + d.day
  }

  /** 0 is Sunday, 6 is Saturday. */
  function Weekday(d: Date): nat {
    Ordinal(d) % 7
  }

  lemma YearLength(year: nat)
    ensures DaysBeforeMonth(year, 12) + 31 == if Leap(year) then 366 else 365
  {
    assert DaysBeforeMonth(year, 2) == 31;
    assert DaysBeforeMonth(year, 3) == 31 + DaysIn(year, 2);
    assert DaysBeforeMonth(year, 4) == DaysBeforeMonth(year, 3) + 31;
    assert DaysBeforeMonth(year, 5) == DaysBeforeMonth(year, 4) + 30;
    assert DaysBeforeMonth(year, 6) == DaysBeforeMonth(year, 5) + 31;
    assert DaysBeforeMonth(year, 7) == DaysBeforeMonth(year, 6) + 30;
    assert DaysBeforeMonth(year, 8) == DaysBeforeMonth(year, 7) + 31;
    assert DaysBeforeMonth(year, 9) == DaysBeforeMonth(year, 8) + 31;
    assert DaysBeforeMonth(year, 10) == DaysBeforeMonth(year, 9) + 30;
    assert DaysBeforeMonth(year, 11) == DaysBeforeMonth(year, 10) + 31;
  }

  /** The day after a date has the next day number. */
  lemma NextOrdinal(d: Date)
    requires Valid(d)
    ensures Valid(Next(d)) && Ordinal(Next(d)) == Ordinal(d) + 1
  {
    YearLength(d.year);
  }

  lemma PreviousOrdinal(d: Date)
    requires Valid(d) && Ordinal(d) > 1
    ensures Valid(Previous(d)) && Next(Previous(d)) == d && Ordinal(Previous(d)) + 1 == Ordinal(d)
  {
    assert d.year == 1 && d.month == 1 && d.day == 1 ==> Ordinal(d) == 1;
    NextOrdinal(Previous(d));
  }

  /** The order of years, then months, then days. */
  predicate Earlier(a: Date, b: Date) {
    a.year < b.year || (a.year == b.year && (a.month < b.month || (a.month == b.month && a.day < b.day)))
  }

  lemma {:induction false} YearsAdd(y: nat, z: nat)
    requires 1 <= y < z
    ensures DaysBeforeYear(y) + (if Leap(y) then 366 else 365) <= DaysBeforeYear(z)
  {
    if y + 1 < z { YearsAdd(y, z - 1); }
  }

  lemma {:induction false} MonthsAdd(year: nat, m: nat, n: nat)
    requires 1 <= m < n
    ensures DaysBeforeMonth(year, m) + DaysIn(year, m) <= DaysBeforeMonth(year, n)
  {
    if m + 1 < n { MonthsAdd(year, m, n - 1); }
  }

  lemma WithinYear(d: Date)
    requires Valid(d)
    ensures 1 <= DaysBeforeMonth(d.year, d.month) + d.day <= if Leap(d.year) then 366 else 365
  {
    YearLength(d.year);
    if d.month < 12 { MonthsAdd(d.year, d.month, 12); }
  }

  lemma EarlierOrdinal(a: Date, b: Date)
    requires Valid(a) && Valid(b) && Earlier(a, b)
    ensures Ordinal(a) < Ordinal(b)
  {
    WithinYear(a);
    WithinYear(b);
    if a.year < b.year {
      YearsAdd(a.year, b.year);
    } else if a.month < b.month {
      MonthsAdd(a.year, a.month, b.month);
    }
  }

  /** Field order and day-number order are one order. */
  lemma OrdinalOrder(a: Date, b: Date)
    requires Valid(a) && Valid(b)
    ensures Earlier(a, b) <==> Ordinal(a) < Ordinal(b)
    ensures a == b <==> Ordinal(a) == Ordinal(b)
  {
    if Earlier(a, b) { EarlierOrdinal(a, b); }
    if Earlier(b, a) { EarlierOrdinal(b, a); }
  }

  lemma DivStep(n: nat, k: nat)
    requires n >= 1 && (k == 4 || k == 100 || k == 400)
    ensures n / k == (n - 1) / k + if n % k == 0 then 1 else 0
  {
  }

  /** The days before a year, in closed form. */
  lemma {:induction false} DaysBeforeYearClosed(year: nat)
    requires year >= 1
    ensures DaysBeforeYear(year) == 365 * (year - 1) + (year - 1) / 4 - (year - 1) / 100 + (year - 1) / 400
  {
    if year > 1 {
      var before := year - 1;
      DaysBeforeYearClosed(before);
      DivStep(before, 4);
      DivStep(before, 100);
      DivStep(before, 400);
      LeapCount(before);
      assert DaysBeforeYear(year) == DaysBeforeYear(before) + if Leap(before) then 366 else 365;
    }
  }

  lemma Multiples(year: nat)
    ensures year % 400 == 0 ==> year % 100 == 0
    ensures year % 100 == 0 ==> year % 4 == 0
  {
    if year % 400 == 0 {
      var q := year / 400;
      assert year == 100 * (4 * q);
    }
    if year % 100 == 0 {
      var q := year / 100;
      assert year == 4 * (25 * q);
    }
  }

  lemma LeapCount(year: nat)
    ensures (if Leap(year) then 1 else 0)
            == (if year % 4 == 0 then 1 else 0) - (if year % 100 == 0 then 1 else 0)
               + (if year % 400 == 0 then 1 else 0)
  {
    Multiples(year);
  }

  // ---- texts -------------------------------------------------------------------

  function Digit(n: nat): char
    requires n < 10
  {
    "0123456789"[n]
  }

  /** The last `width` decimal digits. */
  function Pad(n: nat, width: nat): (s: string)
    ensures |s| == width
  {
    if width == 0 then "" else Pad(n / 10, width - 1) + [Digit(n % 10)]
  }

  /** Years of five digits are printed in full. */
  function Format(d: Date): string {
    Pad(d.year, if d.year < 10000 then 4 else 5) + ("-" + (Pad(d.month, 2) + ("-" + Pad(d.day, 2))))
  }

  /** String order, character by character. */
  predicate Less(s: string, t: string) {
    if t == "" then false
    else if s == "" then true
    else s[0] < t[0] || (s[0] == t[0] && Less(s[1..], t[1..]))
  }

  lemma {:induction false} LessConcat(a: string, x: string, b: string, y: string)
    requires |a| == |b|
    ensures Less(a + x, b + y) <==> Less(a, b) || (a == b && Less(x, y))
  {
    if a == "" {
      assert a + x == x && b + y == y;
    } else {
      assert (a + x)[1..] == a[1..] + x && (b + y)[1..] == b[1..] + y;
      LessConcat(a[1..], x, b[1..], y);
      assert a == [a[0]] + a[1..] && b == [b[0]] + b[1..];
    }
  }

  lemma {:induction false} LessIrreflexive(s: string)
    ensures !Less(s, s)
  {
    if s != "" { LessIrreflexive(s[1..]); }
  }

  lemma {:induction false} LessTransitive(s: string, t: string, u: string)
    requires Less(s, t) && Less(t, u)
    ensures Less(s, u)
  {
    if s != "" && s[0] == t[0] && t[0] == u[0] { LessTransitive(s[1..], t[1..], u[1..]); }
  }

  lemma {:induction false} LessTotal(s: string, t: string)
    ensures Less(s, t) || s == t || Less(t, s)
  {
    if s != "" && t != "" && s[0] == t[0] {
      LessTotal(s[1..], t[1..]);
      assert s == [s[0]] + s[1..] && t == [t[0]] + t[1..];
    }
  }

  function Pow10(width: nat): nat {
    if width == 0 then 1 else 10 * Pow10(width - 1)
  }

  lemma DigitOrder(m: nat, n: nat)
    requires m < 10 && n < 10
    ensures Less([Digit(m)], [Digit(n)]) <==> m < n
    ensures Digit(m) == Digit(n) <==> m == n
  {
    assert [Digit(m)][1..] == "" && [Digit(n)][1..] == "";
  }

  lemma {:induction false} PadOrder(m: nat, n: nat, width: nat)
    requires m < Pow10(width) && n < Pow10(width)
    ensures Less(Pad(m, width), Pad(n, width)) <==> m < n
    ensures Pad(m, width) == Pad(n, width) <==> m == n
  {
    if width > 0 {
      PadOrder(m / 10, n / 10, width - 1);
      LessConcat(Pad(m / 10, width - 1), [Digit(m % 10)], Pad(n / 10, width - 1), [Digit(n % 10)]);
      DigitOrder(m % 10, n % 10);
      var a, b := Pad(m, width), Pad(n, width);
      assert a[..width - 1] == Pad(m / 10, width - 1) && b[..width - 1] == Pad(n / 10, width - 1);
      assert a[width - 1] == Digit(m % 10) && b[width - 1] == Digit(n % 10);
    }
  }

  /** A date with a year of at most four digits. */
  predicate Printable(d: Date) {
    Valid(d) && d.year <= 9999
  }

  /** On texts YYYY-MM-DD string order is day order, and equal texts are equal days. */
  lemma FormatOrder(a: Date, b: Date)
    requires Printable(a) && Printable(b)
    ensures Less(Format(a), Format(b)) <==> Ordinal(a) < Ordinal(b)
    ensures Format(a) == Format(b) <==> a == b
  {
    assert Pow10(2) == 100 by { assert Pow10(1) == 10; }
    assert Pow10(4) == 10000 by { assert Pow10(3) == 1000; }
    PadOrder(a.year, b.year, 4);
    PadOrder(a.month, b.month, 2);
    PadOrder(a.day, b.day, 2);
    var da, db := Pad(a.day, 2), Pad(b.day, 2);
    var ma, mb := Pad(a.month, 2) + ("-" + da), Pad(b.month, 2) + ("-" + db);
    LessConcat("-", da, "-", db);
    LessIrreflexive("-");
    LessConcat(Pad(a.month, 2), "-" + da, Pad(b.month, 2), "-" + db);
    LessConcat("-", ma, "-", mb);
    LessConcat(Pad(a.year, 4), "-" + ma, Pad(b.year, 4), "-" + mb);
    OrdinalOrder(a, b);
    LessIrreflexive(Format(a));
    if !Earlier(a, b) && !Earlier(b, a) {
      assert a == b;
    }
    FormatPieces(a);
    FormatPieces(b);
  }

  lemma FormatPieces(d: Date)
    requires Printable(d)
    ensures |Format(d)| == 10 && Format(d)[4] == '-' && Format(d)[7] == '-'
    ensures Format(d)[..4] == Pad(d.year, 4) && Format(d)[5..7] == Pad(d.month, 2) && Format(d)[8..] == Pad(d.day, 2)
  {
  }

  // ---- parsing -----------------------------------------------------------------

  predicate IsDigit(c: char) {
    '0' <= c <= '9'
  }

  predicate AllDigits(s: string) {
    forall i :: 0 <= i < |s| ==> IsDigit(s[i])
  }

  function NumberOf(s: string): nat
    requires AllDigits(s)
  {
    if s == "" then 0 else 10 * NumberOf(s[..|s| - 1]) + (s[|s| - 1] as int - '0' as int)
  }

  /** YYYY-MM-DD naming an existing day; years below 100 are taken for years of the 20th century and refused. */
  function ParseBaseDate(s: string): Option<Date> {
    if |s| == 10 && s[4] == '-' && s[7] == '-' && AllDigits(s[..4]) && AllDigits(s[5..7]) && AllDigits(s[8..]) then
      var d := Date(NumberOf(s[..4]), NumberOf(s[5..7]), NumberOf(s[8..]));
      if d.year >= 100 && Valid(d) then Some(d) else None
    else None
  }

  lemma {:induction false} NumberOfPad(n: nat, width: nat)
    requires n < Pow10(width)
    ensures AllDigits(Pad(n, width)) && NumberOf(Pad(n, width)) == n
  {
    if width > 0 {
      NumberOfPad(n / 10, width - 1);
      var s := Pad(n, width);
      assert s[..|s| - 1] == Pad(n / 10, width - 1) && s[|s| - 1] == Digit(n % 10);
    }
  }

  lemma {:induction false} PadOfNumber(s: string)
    requires AllDigits(s)
    ensures NumberOf(s) < Pow10(|s|) && Pad(NumberOf(s), |s|) == s
  {
    if s != "" {
      var before, digit := s[..|s| - 1], s[|s| - 1] as int - '0' as int;
      PadOfNumber(before);
      assert s == before + [Digit(digit)];
      assert NumberOf(s) / 10 == NumberOf(before) && NumberOf(s) % 10 == digit;
    }
  }

  /** Printing then parsing gives the date back. */
  lemma ParseOfFormat(d: Date)
    requires Printable(d) && d.year >= 100
    ensures ParseBaseDate(Format(d)) == Some(d)
  {
    assert Pow10(2) == 100 by { assert Pow10(1) == 10; }
    assert Pow10(4) == 10000 by { assert Pow10(3) == 1000; }
    NumberOfPad(d.year, 4);
    NumberOfPad(d.month, 2);
    NumberOfPad(d.day, 2);
    FormatPieces(d);
  }

  lemma TextPieces(s: string)
    requires |s| == 10 && s[4] == '-' && s[7] == '-'
    ensures s == s[..4] + ("-" + (s[5..7] + ("-" + s[8..])))
  {
  }

  /** Only the text of a date parses to it. */
  lemma FormatOfParse(s: string)
    requires ParseBaseDate(s).Some?
    ensures Printable(ParseBaseDate(s).value) && Format(ParseBaseDate(s).value) == s
  {
    hide NumberOf, Pad, AllDigits, DaysIn;
    assert Pow10(2) == 100 by { assert Pow10(1) == 10; }
    assert Pow10(4) == 10000 by { assert Pow10(3) == 1000; }
    hide Pow10;
    PadOfNumber(s[..4]);
    PadOfNumber(s[5..7]);
    PadOfNumber(s[8..]);
    TextPieces(s);
  }

  const LAST_DATE := Date(9999, 12, 31)

  // ---- the last printable day --------------------------------------------------------

  /** A year of five digits begins with a '1', the last four-digit one with a '9'. */
  lemma YearTenThousand(month: nat, day: nat)
    ensures !Less(Format(LAST_DATE), Format(Date(10000, month, day)))
  {
    var s, t := Format(LAST_DATE), Format(Date(10000, month, day));
    FirstDigit(9999, 4);
    FirstDigit(999, 3);
    FirstDigit(99, 2);
    FirstDigit(10000, 5);
    FirstDigit(1000, 4);
    FirstDigit(100, 3);
    FirstDigit(10, 2);
    assert s[0] == Pad(9, 1)[0] == '9' && t[0] == Pad(1, 1)[0] == '1';
  }

  lemma FirstDigit(n: nat, width: nat)
    requires width >= 2
    ensures Pad(n, width)[0] == Pad(n / 10, width - 1)[0]
  {
  }

  /** The text of the day after is later as a string, except after 9999-12-31. */
  lemma NextDayTextIsLater(d: Date)
    requires Printable(d)
    ensures Less(Format(d), Format(Next(d))) <==> d != LAST_DATE
  {
    NextOrdinal(d);
    if d != LAST_DATE {
      FormatOrder(d, Next(d));
    } else {
      YearTenThousand(1, 1);
    }
  }
}
