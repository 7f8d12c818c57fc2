/** Gregorian dates and Julian day numbers. */
module Calendar {

  datatype Date = Date(year: int, month: int, day: int)

  /** All operands below are non-negative for the dates and day numbers considered, so `/` truncates as in C. */
  function GetJulianDayNumber(t: Date): int {
    var a := (14 - t.month) / 12;
    var y := t.year + 4800 - a;
    var m := t.month + 12 * a - 3;
    t.day + (153 * m + 2) / 5 + y * 365 + y / 4 - y / 100 + y / 400 - 32045
  }

  function GetYearMonthDay(julianDayNumber: int): Date {
    var a := julianDayNumber + 32044;
    var b := Centuries(a);
    var c := a - b * 146097 / 4;
    var d := Years(c);
    var e := c - 1461 * d / 4;
    var m := Months(e);
    Date(b * 100 + d - 4800 + m / 10, m + 3 - 12 * (m / 10), e - (153 * m + 2) / 5 + 1)
  }

  function Centuries(a: int): int { (4 * a + 3) / 146097 }
  function Years(c: int): int { (4 * c + 3) / 1461 }
  function Months(e: int): int { (5 * e + 2) / 153 }

  // ---------- The calendar itself ----------

  predicate Leap(year: int) { year % 4 == 0 && (year % 100 != 0 || year % 400 == 0) }

  function DaysIn(year: int, month: int): int {
    if month == 2 then (if Leap(year) then 29 else 28)
    else if month == 4 || month == 6 || month == 9 || month == 11 then 30
    else 31
  }

  predicate ValidDate(t: Date) { 1 <= t.month <= 12 && 1 <= t.day <= DaysIn(t.year, t.month) }

  /** Not before 1 March of year -4800. */
  predicate FromStart(t: Date) { t.year > -4800 || (t.year == -4800 && t.month >= 3) }

  function NextDay(t: Date): Date {
    if t.day < DaysIn(t.year, t.month) then t.(day := t.day + 1)
    else if t.month < 12 then Date(t.year, t.month + 1, 1)
    else Date(t.year + 1, 1, 1)
  }

  // ---------- Years that start in March ----------

  /** The first day of month `m`, counted from March as 0, within its March year. */
  function MonthStart(m: int): int { (153 * m + 2) / 5 }

  /** The first day of March year `y`; `y` counts from -4800. */
  function YearStart(y: int): int { 365 * y + y / 4 - y / 100 + y / 400 }

  /** The length of March year `y`: its February belongs to the next calendar year. */
  function YearLength(y: int): int { if Leap(y + 1) then 366 else 365 }

  /** The March year, month and day (from 0) of a date. */
  function MarchYear(t: Date): int { t.year + 4800 - (if t.month <= 2 then 1 else 0) }
  function MarchMonth(t: Date): int { if t.month <= 2 then t.month + 9 else t.month - 3 }
  function MarchDay(t: Date): int { MonthStart(MarchMonth(t)) + t.day - 1 }

  lemma LeapShift(year: int)
    ensures Leap(year + 4800) <==> Leap(year)
  {
  }

  lemma JulianIs(t: Date)
    requires ValidDate(t)
    ensures GetJulianDayNumber(t) == YearStart(MarchYear(t)) + MarchDay(t) - 32044
  {
    assert (14 - t.month) / 12 == if t.month <= 2 then 1 else 0;
  }

  /** The months fill the March year without gaps. */
  lemma MonthFits(y: int, m: int)
    requires 0 <= m < 12
    ensures MonthStart(m) >= 0
    ensures m < 11 ==> MonthStart(m + 1) - MonthStart(m) == DaysIn(y - 4800, m + 3 - 12 * (m / 10)) || m == 10
    ensures m == 10 ==> MonthStart(11) - MonthStart(10) == 31
    ensures m == 11 ==> MonthStart(11) + (if Leap(y + 1) then 29 else 28) == YearLength(y)
  {
    assert MonthStart(0) == 0 && MonthStart(1) == 31 && MonthStart(2) == 61 && MonthStart(3) == 92;
    assert MonthStart(4) == 122 && MonthStart(5) == 153 && MonthStart(6) == 184 && MonthStart(7) == 214;
    assert MonthStart(8) == 245 && MonthStart(9) == 275 && MonthStart(10) == 306 && MonthStart(11) == 337;
  }

  lemma DayFits(t: Date)
    requires ValidDate(t)
    ensures 0 <= MarchMonth(t) < 12 && 0 <= MarchDay(t) < YearLength(MarchYear(t))
    ensures MarchMonth(t) < 11 ==> MarchDay(t) < MonthStart(MarchMonth(t) + 1)
  {
    LeapShift(t.year);
    MonthFits(MarchYear(t), MarchMonth(t));
  }

  lemma MonthOf(m: int, e: int)
    requires 0 <= m < 12 && MonthStart(m) <= e && (if m < 11 then e < MonthStart(m + 1) else e <= 365)
    ensures Months(e) == m
  {
  }

  lemma YearNext(y: int)
    requires y >= 0
    ensures YearStart(y + 1) == YearStart(y) + YearLength(y)
  {
    Carry(y, 4);
    Carry(y, 100);
    Carry(y, 400);
  }

  lemma Carry(y: int, n: int)
    requires y >= 0 && n in {4, 100, 400}
    ensures (y + 1) / n == y / n + if (y + 1) % n == 0 then 1 else 0
  {
  }

  // ---------- Undoing the day number ----------

  lemma Century(y: int)
    requires y >= 0
    ensures var b, d := y / 100, y % 100;
      YearStart(y) == 36524 * b + b / 4 + 365 * d + d / 4
  {
    var b, d := y / 100, y % 100;
    assert y == 100 * b + d;
    assert y / 4 == 25 * b + d / 4;
    assert y / 400 == b / 4;
  }

  lemma LongYear(y: int)
    requires y >= 0
    ensures var b, d := y / 100, y % 100;
      Leap(y + 1) <==> if d == 99 then b % 4 == 3 else d % 4 == 3
  {
    var b, d := y / 100, y % 100;
    assert y == 100 * b + d;
    assert (y + 1) % 100 == if d == 99 then 0 else d + 1;
    assert (y + 1) % 4 == (d + 1) % 4;
    if d == 99 { assert y + 1 == 100 * (b + 1); assert (y + 1) % 400 == 100 * ((b + 1) % 4); }
  }

  lemma CenturyOf(b: int, c: int)
    requires b >= 0 && 0 <= c <= (if b % 4 == 3 then 36524 else 36523)
    ensures var a := 36524 * b + b / 4 + c;
      Centuries(a) == b && a - b * 146097 / 4 == c
  {
    assert b == 4 * (b / 4) + b % 4;
    assert b * 146097 / 4 == 36524 * b + b / 4;
  }

  lemma YearOf(d: int, e: int)
    requires 0 <= d < 100 && 0 <= e <= (if d % 4 == 3 then 365 else 364)
    ensures var c := 365 * d + d / 4 + e;
      Years(c) == d && c - 1461 * d / 4 == e
  {
    assert d == 4 * (d / 4) + d % 4;
    assert 1461 * d / 4 == 365 * d + d / 4;
  }

  lemma DayInCentury(y: int, e: int)
    requires y >= 0 && 0 <= e < YearLength(y)
    ensures var b, d := y / 100, y % 100;
      && 0 <= 365 * d + d / 4 + e <= (if b % 4 == 3 then 36524 else 36523)
      && e <= (if d % 4 == 3 then 365 else 364)
  {
    hide Leap;
    LongYear(y);
  }

  lemma Decode(y: int, m: int, e: int)
    requires y >= 0 && 0 <= e < YearLength(y)
    requires 0 <= m < 12 && MonthStart(m) <= e && (m < 11 ==> e < MonthStart(m + 1))
    ensures GetYearMonthDay(YearStart(y) + e - 32044) ==
            Date(y - 4800 + m / 10, m + 3 - 12 * (m / 10), e - MonthStart(m) + 1)
  {
    hide Leap, YearStart, YearLength, Centuries, Years, Months;
    var b, d := y / 100, y % 100;
    var c := 365 * d + d / 4 + e;
    Century(y);
    DayInCentury(y, e);
    CenturyOf(b, c);
    YearOf(d, e);
    MonthOf(m, e);
  }

  /** A valid date is recovered from its day number. */
  lemma DateRoundTrip(t: Date)
    requires ValidDate(t) && FromStart(t)
    ensures GetYearMonthDay(GetJulianDayNumber(t)) == t
  {
    hide GetJulianDayNumber, GetYearMonthDay, YearStart, MonthStart, YearLength;
    JulianIs(t);
    DayFits(t);
    Decode(MarchYear(t), MarchMonth(t), MarchDay(t));
  }

  /** The next calendar day has the next number, over every month and leap-year boundary. */
  lemma NextDayNumber(t: Date)
    requires ValidDate(t) && FromStart(t)
    ensures ValidDate(NextDay(t)) && FromStart(NextDay(t))
    ensures GetJulianDayNumber(NextDay(t)) == GetJulianDayNumber(t) + 1
  {
    hide GetJulianDayNumber, YearStart, MonthStart;
    var u := NextDay(t);
    JulianIs(t);
    JulianIs(u);
    LeapShift(t.year);
    MonthFits(MarchYear(t), MarchMonth(t));
    MonthZero();
    YearNext(MarchYear(t));
  }

  lemma MonthZero()
    ensures MonthStart(0) == 0
  {
  }

  /** Every day number from the start of the calendar belongs to a valid date. */
  lemma {:induction false} DateOf(n: int) returns (t: Date)
    requires n >= -32044
    ensures ValidDate(t) && FromStart(t) && GetJulianDayNumber(t) == n
    decreases n + 32044
  {
    if n == -32044 {
      t := Date(-4800, 3, 1);
    } else {
      var s := DateOf(n - 1);
      NextDayNumber(s);
      t := NextDay(s);
    }
  }

  /** A day number is recovered from its date, which is valid. */
  lemma NumberRoundTrip(n: int)
    requires n >= -32044
    ensures ValidDate(GetYearMonthDay(n)) && FromStart(GetYearMonthDay(n))
    ensures GetJulianDayNumber(GetYearMonthDay(n)) == n
  {
    var t := DateOf(n);
    DateRoundTrip(t);
  }

  /** Two dates share a number only if they are the same date. */
  lemma {:induction false} NumbersUnique(s: Date, t: Date)
    requires ValidDate(s) && ValidDate(t) && FromStart(s) && FromStart(t)
    ensures GetJulianDayNumber(s) == GetJulianDayNumber(t) <==> s == t
  {
    DateRoundTrip(s);
    DateRoundTrip(t);
  }
}
