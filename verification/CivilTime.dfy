/**
 Calendar fields and minutes, counted from the start of the year 0 of the proleptic Gregorian
 calendar, and the text of an instant as section 21.4.1.32 of ECMA-262 prints it.
 */
module CivilTime {
  import opened Text

  predicate Leap(y: int) {
    y % 4 == 0 && (y % 100 != 0 || y % 400 == 0)
  }

  /** Day number of the first of January: DayFromYear of ECMA-262, from another origin. */
  function DaysBeforeYear(y: int): int {
    365 * y + (y + 3) / 4 - (y + 99) / 100 + (y + 399) / 400
  }

  function DaysInYear(y: int): nat {
    if Leap(y) then 366 else 365
  }

  lemma YearLength(y: int)
    ensures DaysBeforeYear(y + 1) - DaysBeforeYear(y) == DaysInYear(y)
  {
    assert (y + 4) / 4 - (y + 3) / 4 == if y % 4 == 0 then 1 else 0;
    assert (y + 100) / 100 - (y + 99) / 100 == if y % 100 == 0 then 1 else 0;
    assert (y + 400) / 400 - (y + 399) / 400 == if y % 400 == 0 then 1 else 0;
    assert y % 100 == 0 ==> y % 4 == 0;
    assert y % 400 == 0 ==> y % 100 == 0;
  }

  lemma {:induction false} YearsGrow(y: int, z: int)
    requires y <= z
    ensures DaysBeforeYear(z) - DaysBeforeYear(y) >= 365 * (z - y)
    decreases z - y
  {
    if y < z {
      YearsGrow(y, z - 1);
      YearLength(z - 1);
    }
  }

  predicate Month(m: int) { 1 <= m <= 12 }

  function DaysInMonth(y: int, m: int): nat
    requires Month(m)
  {
    if m == 2 then (if Leap(y) then 29 else 28) else if m in {4, 6, 9, 11} then 30 else 31
  }

  /** The months of the calendar; the leap day is the one that the year has more. */
  lemma MonthLengths(y: int)
    ensures DaysInMonth(y, 1) == DaysInMonth(y, 3) == DaysInMonth(y, 5) == DaysInMonth(y, 7) == DaysInMonth(y, 8) == 31
    ensures DaysInMonth(y, 10) == DaysInMonth(y, 12) == 31 && DaysInMonth(y, 2) == DaysInYear(y) - 337
    ensures DaysInMonth(y, 4) == DaysInMonth(y, 6) == DaysInMonth(y, 9) == DaysInMonth(y, 11) == 30
  {
  }

  function DaysBeforeMonth(y: int, m: int): nat
    requires 1 <= m <= 13
  {
    if m == 1 then 0 else DaysBeforeMonth(y, m - 1) + DaysInMonth(y, m - 1)
  }

  lemma TwelveMonths(y: int)
    ensures DaysBeforeMonth(y, 13) == DaysInYear(y)
  {
    assert DaysBeforeMonth(y, 2) == 31;
    assert DaysBeforeMonth(y, 3) == 59 + DaysInYear(y) - 365;
    assert DaysBeforeMonth(y, 5) == DaysBeforeMonth(y, 3) + 61;
    assert DaysBeforeMonth(y, 7) == DaysBeforeMonth(y, 5) + 61;
    assert DaysBeforeMonth(y, 9) == DaysBeforeMonth(y, 7) + 62;
    assert DaysBeforeMonth(y, 11) == DaysBeforeMonth(y, 9) + 61;
  }

  lemma {:induction false} MonthsGrow(y: int, m: int, n: int)
    requires 1 <= m < n <= 13
    ensures DaysBeforeMonth(y, m) + DaysInMonth(y, m) <= DaysBeforeMonth(y, n)
    decreases n
  {
    if m < n - 1 {
      MonthsGrow(y, m, n - 1);
    }
  }

  /** The year a day number falls in, looked for upwards from y. */
  function YearUp(n: int, y: int): (r: int)
    requires DaysBeforeYear(y) <= n
    ensures DaysBeforeYear(r) <= n < DaysBeforeYear(r + 1)
    decreases n - DaysBeforeYear(y)
  {
    YearLength(y);
    if n < DaysBeforeYear(y + 1) then y else YearUp(n, y + 1)
  }

  function YearDown(n: int, y: int): (r: int)
    requires n < DaysBeforeYear(y)
    ensures DaysBeforeYear(r) <= n < DaysBeforeYear(r + 1)
    decreases DaysBeforeYear(y) - n
  {
    YearLength(y - 1);
    if DaysBeforeYear(y - 1) <= n then y - 1 else YearDown(n, y - 1)
  }

  function YearOf(n: int): (r: int)
    ensures DaysBeforeYear(r) <= n < DaysBeforeYear(r + 1)
  {
    if DaysBeforeYear(0) <= n then YearUp(n, 0) else YearDown(n, 0)
  }

  lemma YearUnique(n: int, y: int, z: int)
    requires DaysBeforeYear(y) <= n < DaysBeforeYear(y + 1) && DaysBeforeYear(z) <= n < DaysBeforeYear(z + 1)
    ensures y == z
  {
    if y < z {
      YearsGrow(y + 1, z);
    } else if z < y {
      YearsGrow(z + 1, y);
    }
  }

  /** The month of the day with the given number in its year. */
  function MonthFrom(y: int, day: nat, m: int): (r: int)
    requires Month(m) && DaysBeforeMonth(y, m) <= day < DaysInYear(y)
    ensures Month(r) && DaysBeforeMonth(y, r) <= day < DaysBeforeMonth(y, r) + DaysInMonth(y, r)
    decreases 13 - m
  {
    TwelveMonths(y);
    if day < DaysBeforeMonth(y, m + 1) then m else MonthFrom(y, day, m + 1)
  }

  lemma MonthUnique(y: int, day: int, m: int, n: int)
    requires Month(m) && Month(n)
    requires DaysBeforeMonth(y, m) <= day < DaysBeforeMonth(y, m) + DaysInMonth(y, m)
    requires DaysBeforeMonth(y, n) <= day < DaysBeforeMonth(y, n) + DaysInMonth(y, n)
    ensures m == n
  {
    if m < n {
      MonthsGrow(y, m, n);
    } else if n < m {
      MonthsGrow(y, n, m);
    }
  }

  // ---- Fields ----

  datatype Fields = Fields(year: int, month: int, day: int, hour: int, minute: int)

  /** A date of the calendar and a time of the day. */
  predicate Real(f: Fields) {
    Month(f.month) && 1 <= f.day <= DaysInMonth(f.year, f.month) && 0 <= f.hour < 24 && 0 <= f.minute < 60
  }

  function DayNumber(y: int, m: int, d: int): int
    requires Month(m)
  {
    DaysBeforeYear(y) + DaysBeforeMonth(y, m) + d - 1
  }

  function Minutes(f: Fields): int
    requires Month(f.month)
  {
    DayNumber(f.year, f.month, f.day) * 1440 + f.hour * 60 + f.minute
  }

  function FieldsOf(t: int): (f: Fields)
    ensures Real(f)
  {
    var n, rest := t / 1440, t % 1440;
    var y := YearOf(n);
    YearLength(y);
    var day := n - DaysBeforeYear(y);
    var m := MonthFrom(y, day, 1);
    Fields(y, m, day - DaysBeforeMonth(y, m) + 1, rest / 60, rest % 60)
  }

  /** Every minute number is that of its fields. */
  lemma MinuteOfFields(t: int)
    ensures Minutes(FieldsOf(t)) == t
  {
    var n, rest := t / 1440, t % 1440;
    var f := FieldsOf(t);
    assert DayNumber(f.year, f.month, f.day) == n;
    assert f.hour * 60 + f.minute == rest;
  }

  lemma DayInYear(y: int, m: int, d: int)
    requires Month(m) && 1 <= d <= DaysInMonth(y, m)
    ensures DaysBeforeYear(y) <= DayNumber(y, m, d) < DaysBeforeYear(y + 1)
  {
    TwelveMonths(y);
    YearLength(y);
    MonthsGrow(y, m, 13);
  }

  /** Real fields come back from their minute. */
  lemma FieldsRoundTrip(f: Fields)
    requires Real(f)
    ensures FieldsOf(Minutes(f)) == f
  {
    MinuteOfFields(Minutes(f));
    SameMinutes(f, FieldsOf(Minutes(f)));
  }

  lemma SameMinutes(f: Fields, g: Fields)
    requires Real(f) && Real(g) && Minutes(f) == Minutes(g)
    ensures f == g
  {
    var m, n := DayNumber(f.year, f.month, f.day), DayNumber(g.year, g.month, g.day);
    assert 1440 * (m - n) == (g.hour - f.hour) * 60 + g.minute - f.minute;
    assert m == n;
    DayInYear(f.year, f.month, f.day);
    DayInYear(g.year, g.month, g.day);
    YearUnique(m, f.year, g.year);
    MonthUnique(f.year, m - DaysBeforeYear(f.year), f.month, g.month);
  }

  /** Field by field, most significant first. */
  predicate Earlier(f: Fields, g: Fields) {
    || f.year < g.year
    || (f.year == g.year
        && (|| f.month < g.month
            || (f.month == g.month
                && (|| f.day < g.day
                    || (f.day == g.day && (f.hour < g.hour || (f.hour == g.hour && f.minute < g.minute)))))))
  }

  lemma EarlierIsLess(f: Fields, g: Fields)
    requires Real(f) && Real(g) && Earlier(f, g)
    ensures Minutes(f) < Minutes(g)
  {
    var m, n := DayNumber(f.year, f.month, f.day), DayNumber(g.year, g.month, g.day);
    DayInYear(f.year, f.month, f.day);
    DayInYear(g.year, g.month, g.day);
    if f.year < g.year {
      YearsGrow(f.year + 1, g.year);
    } else if f.month < g.month {
      MonthsGrow(f.year, f.month, g.month);
    }
    assert m <= n;
  }

  lemma EarlierIff(f: Fields, g: Fields)
    requires Real(f) && Real(g)
    ensures Earlier(f, g) <==> Minutes(f) < Minutes(g)
  {
    if Earlier(f, g) {
      EarlierIsLess(f, g);
    } else if Earlier(g, f) {
      EarlierIsLess(g, f);
    } else {
      assert f == g;
    }
  }

  /** The order of instants is the order of their fields. */
  lemma InstantOrder(s: int, t: int)
    ensures Earlier(FieldsOf(s), FieldsOf(t)) <==> s < t
  {
    EarlierIff(FieldsOf(s), FieldsOf(t));
    MinuteOfFields(s);
    MinuteOfFields(t);
  }

  // ---- The ISO text ----

  /** Four digits, or a sign and six outside the years 0 to 9999. */
  function YearText(y: int): (s: string) {
    if 0 <= y <= 9999 then Padded(y, 4) else if y < 0 then "-" + Padded(-y, 6) else "+" + Padded(y, 6)
  }

  function Two(n: int): (s: string)
    requires 0 <= n < 100
    ensures |s| == 2 && AllDigits(s)
  {
    [Digit(n / 10), Digit(n % 10)]
  }

  function DateTimeText(f: Fields): (s: string)
    requires Real(f)
    ensures |s| == 12
  {
    "-" + Two(f.month) + "-" + Two(f.day) + "T" + Two(f.hour) + ":" + Two(f.minute)
  }

  /** toISOString at a whole minute. */
  function IsoText(t: int): (s: string) {
    YearText(FieldsOf(t).year) + DateTimeText(FieldsOf(t)) + ":00.000Z"
  }
}
