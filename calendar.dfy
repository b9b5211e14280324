/** The proleptic Gregorian calendar, enough to say which weekday a booking
    date falls on. A date-only ISO string (`2024-06-03`) denotes midnight UTC;
    days are counted from 1970-01-01, which was a Thursday. */
module Calendar {
  import opened Common

  datatype CivilDate = CivilDate(year: int, month: int, day: int)

  datatype Weekday = Sunday | Monday | Tuesday | Wednesday | Thursday | Friday | Saturday

  predicate IsLeapYear(y: int)
  {
    (y % 4 == 0 && y % 100 != 0) || y % 400 == 0
  }

  function DaysInMonth(y: int, m: int): int
    requires 1 <= m <= 12
  {
    if m == 2 then (if IsLeapYear(y) then 29 else 28)
    else if m == 4 || m == 6 || m == 9 || m == 11 then 30
    else 31
  }

  /** A real calendar day (the month has that many days). */
  predicate IsCalendarDate(d: CivilDate)
  {
    1 <= d.month <= 12 && 1 <= d.day <= DaysInMonth(d.year, d.month)
  }

  /** Days from 1970-01-01 to `d`. Years are counted from March, so that the
      leap day is the last day of a counting year; a day beyond the end of
      the month runs on into the next one. */
  function DaysFromCivil(d: CivilDate): int
    requires 1 <= d.month <= 12
  {
    var y := if d.month <= 2 then d.year - 1 else d.year;
    var mp := if d.month > 2 then d.month - 3 else d.month + 9;
    var dayOfYear := (153 * mp + 2) / 5 + d.day - 1;
    365 * y + y / 4 - y / 100 + y / 400 + dayOfYear - 719468
  }

  function WeekdayFromIndex(i: int): Weekday
    requires 0 <= i < 7
  {
    [Sunday, Monday, Tuesday, Wednesday, Thursday, Friday, Saturday][i]
  }

  function WeekdayIndex(w: Weekday): (i: int)
    ensures 0 <= i < 7 && WeekdayFromIndex(i) == w
  {
    match w
    case Sunday => 0
    case Monday => 1
    case Tuesday => 2
    case Wednesday => 3
    case Thursday => 4
    case Friday => 5
    case Saturday => 6
  }

  /** The weekday of `d` (as `getUTCDay()` gives it, 0 for Sunday). */
  function WeekdayOf(d: CivilDate): Weekday
    requires 1 <= d.month <= 12
  {
    WeekdayFromIndex((DaysFromCivil(d) + 4) % 7)
  }

  /** The English long weekday name, `toLocaleString('en-US', { weekday: 'long' })`. */
  function WeekdayName(w: Weekday): string
  {
    match w
    case Sunday => "Sunday"
    case Monday => "Monday"
    case Tuesday => "Tuesday"
    case Wednesday => "Wednesday"
    case Thursday => "Thursday"
    case Friday => "Friday"
    case Saturday => "Saturday"
  }

  /** What `toLocaleString` prints for a date the parser rejected. */
  const InvalidDateName := "Invalid Date"

  /** Distinct weekdays have distinct names, and no name reads "Invalid Date". */
  lemma WeekdayNamesDistinct(v: Weekday, w: Weekday)
    ensures WeekdayName(v) == WeekdayName(w) <==> v == w
    ensures WeekdayName(w) != InvalidDateName
  {
    if v != w {
      assert WeekdayName(v)[0] != WeekdayName(w)[0] || WeekdayName(v)[1] != WeekdayName(w)[1];
    }
    assert |WeekdayName(w)| < |InvalidDateName|;
  }

  // ---------------------------------------------------------------------
  // The next day

  function NextDay(d: CivilDate): (n: CivilDate)
    requires IsCalendarDate(d)
    ensures IsCalendarDate(n)
  {
    if d.day < DaysInMonth(d.year, d.month) then d.(day := d.day + 1)
    else if d.month < 12 then CivilDate(d.year, d.month + 1, 1)
    else CivilDate(d.year + 1, 1, 1)
  }

  lemma FloorStep4(y: int)
    ensures y / 4 - (y - 1) / 4 == if y % 4 == 0 then 1 else 0
  {
  }

  lemma FloorStep100(y: int)
    ensures y / 100 - (y - 1) / 100 == if y % 100 == 0 then 1 else 0
  {
  }

  lemma FloorStep400(y: int)
    ensures y / 400 - (y - 1) / 400 == if y % 400 == 0 then 1 else 0
  {
  }

  /** The leap days counted up to counting year `y` grow by one exactly when
      `y` is a leap year. */
  lemma LeapCountStep(y: int)
    ensures (y / 4 - y / 100 + y / 400) - ((y - 1) / 4 - (y - 1) / 100 + (y - 1) / 400)
            == if IsLeapYear(y) then 1 else 0
  {
    FloorStep4(y);
    FloorStep100(y);
    FloorStep400(y);
    if y % 400 == 0 {
      Divides400(y);
    } else if y % 100 == 0 {
      Divides100(y);
    }
  }

  lemma Divides100(y: int)
    requires y % 100 == 0
    ensures y % 4 == 0
  {
    var q := y / 100;
    assert y == 4 * (25 * q);
  }

  lemma Divides400(y: int)
    requires y % 400 == 0
    ensures y % 100 == 0 && y % 4 == 0
  {
    var q := y / 400;
    assert y == 100 * (4 * q);
    Divides100(y);
  }

  /** Day of the counting year on which shifted month `mp` (0 for March)
      begins: the months from March on have 31, 30, 31, 30, 31, 31, 30, 31,
      30, 31, 31 days. */
  lemma MonthStartStep(mp: int, m: int)
    requires 0 <= mp < 11 && 1 <= m <= 12 && m != 2
    requires mp == if m > 2 then m - 3 else m + 9
    ensures (153 * (mp + 1) + 2) / 5 - (153 * mp + 2) / 5 == DaysInMonth(0, m)
  {
  }

  /** The last day of a month other than February and December is followed
      by the first of the next month, in the same counting year. */
  lemma MonthEndIsOneLater(d: CivilDate)
    requires IsCalendarDate(d) && d.month != 2 && d.month != 12 && d.day == DaysInMonth(d.year, d.month)
    ensures DaysFromCivil(NextDay(d)) == DaysFromCivil(d) + 1
  {
    var mp := if d.month > 2 then d.month - 3 else d.month + 9;
    MonthStartStep(mp, d.month);
    var y := if d.month <= 2 then d.year - 1 else d.year;
    assert DaysFromCivil(d) == 365 * y + y / 4 - y / 100 + y / 400 + (153 * mp + 2) / 5 + d.day - 1 - 719468;
    assert DaysFromCivil(NextDay(d)) == 365 * y + y / 4 - y / 100 + y / 400 + (153 * (mp + 1) + 2) / 5 - 719468;
  }

  /** 31 December is followed by 1 January, in the same counting year. */
  lemma YearEndIsOneLater(d: CivilDate)
    requires IsCalendarDate(d) && d.month == 12 && d.day == 31
    ensures DaysFromCivil(NextDay(d)) == DaysFromCivil(d) + 1
  {
    var y := d.year;
    assert DaysFromCivil(d) == 365 * y + y / 4 - y / 100 + y / 400 + 275 + 30 - 719468;
    assert DaysFromCivil(NextDay(d)) == 365 * y + y / 4 - y / 100 + y / 400 + 306 - 719468;
  }

  /** The last day of February is followed by 1 March, the first day of the
      next counting year. */
  lemma FebruaryEndIsOneLater(d: CivilDate)
    requires IsCalendarDate(d) && d.month == 2 && d.day == DaysInMonth(d.year, d.month)
    ensures DaysFromCivil(NextDay(d)) == DaysFromCivil(d) + 1
  {
    LeapCountStep(d.year);
  }

  /** The day after `d` is one day later: the day count is the calendar's
      successor function, however month and year ends fall. */
  lemma NextDayIsOneLater(d: CivilDate)
    requires IsCalendarDate(d)
    ensures DaysFromCivil(NextDay(d)) == DaysFromCivil(d) + 1
  {
    if d.day == DaysInMonth(d.year, d.month) {
      if d.month == 2 {
        FebruaryEndIsOneLater(d);
      } else if d.month == 12 {
        YearEndIsOneLater(d);
      } else {
        MonthEndIsOneLater(d);
      }
    }
  }

  /** Weekdays follow one another: the next calendar day has the next weekday. */
  lemma WeekdaysCycle(d: CivilDate)
    requires IsCalendarDate(d)
    ensures WeekdayIndex(WeekdayOf(NextDay(d))) == (WeekdayIndex(WeekdayOf(d)) + 1) % 7
  {
    NextDayIsOneLater(d);
    NextIndex(DaysFromCivil(d) + 4);
  }

  lemma NextIndex(n: int)
    ensures WeekdayIndex(WeekdayFromIndex((n + 1) % 7)) == (WeekdayIndex(WeekdayFromIndex(n % 7)) + 1) % 7
  {
  }

  // ---------------------------------------------------------------------
  // The ISO date-only form YYYY-MM-DD

  predicate IsDigit(c: char)
  {
    '0' <= c <= '9'
  }

  function DigitValue(c: char): int
    requires IsDigit(c)
  {
    c as int - '0' as int
  }

  function DigitChar(n: int): (c: char)
    requires 0 <= n < 10
    ensures IsDigit(c) && DigitValue(c) == n
  {
    ('0' as int + n) as char
  }

  predicate AllDigits(s: string)
  {
    forall i | 0 <= i < |s| :: IsDigit(s[i])
  }

  /** The value of a decimal numeral. */
  function Numeral(s: string): (n: int)
    requires AllDigits(s)
    ensures n >= 0
  {
    if s == [] then 0 else Numeral(s[..|s| - 1]) * 10 + DigitValue(s[|s| - 1])
  }

  /** The date `new Date(s)` reads from a date-only ISO string: four year
      digits, two month digits (01-12) and two day digits (01-31), joined by
      hyphens. The parser checks each field's range only. */
  function ParseIsoDate(s: string): (r: Option<CivilDate>)
    ensures r.Some? ==> 1 <= r.value.month <= 12 && 1 <= r.value.day <= 31
    ensures r.Some? ==> 0 <= r.value.year <= 9999
    ensures r.Some? <==>
              && |s| == 10 && s[4] == '-' && s[7] == '-'
              && AllDigits(s[..4]) && AllDigits(s[5..7]) && AllDigits(s[8..])
              && 1 <= Numeral(s[5..7]) <= 12 && 1 <= Numeral(s[8..]) <= 31
  {
    if |s| == 10 && s[4] == '-' && s[7] == '-'
       && AllDigits(s[..4]) && AllDigits(s[5..7]) && AllDigits(s[8..])
    then
      var y, m, d := Numeral(s[..4]), Numeral(s[5..7]), Numeral(s[8..]);
      Numeral4Bound(s[..4]);
      Numeral2Bound(s[5..7]);
      Numeral2Bound(s[8..]);
      if 1 <= m <= 12 && 1 <= d <= 31 then Some(CivilDate(y, m, d)) else None
    else None
  }

  lemma Numeral2Bound(s: string)
    requires |s| == 2 && AllDigits(s)
    ensures Numeral(s) == DigitValue(s[0]) * 10 + DigitValue(s[1]) < 100
  {
    var a := s[..1];
    assert a[..0] == [] && a[0] == s[0];
    assert Numeral(a) == DigitValue(s[0]);
    assert s[..|s| - 1] == a;
  }

  lemma Numeral4Bound(s: string)
    requires |s| == 4 && AllDigits(s)
    ensures Numeral(s) < 10000
  {
    var a := s[..3];
    assert s[..|s| - 1] == a;
    Numeral3Bound(a);
  }

  lemma Numeral3Bound(s: string)
    requires |s| == 3 && AllDigits(s)
    ensures Numeral(s) < 1000
  {
    assert s[..|s| - 1] == s[..2];
    Numeral2Bound(s[..2]);
  }

  /** The zero-padded numeral of `n` with `width` digits. */
  function Padded(n: int, width: nat): (s: string)
    requires n >= 0
    ensures |s| == width && AllDigits(s)
  {
    if width == 0 then [] else Padded(n / 10, width - 1) + [DigitChar(n % 10)]
  }

  lemma {:induction false} PaddedValue(n: int, width: nat, bound: int)
    requires 0 <= n < bound && width >= 1 && bound == Pow10(width)
    ensures Numeral(Padded(n, width)) == n
  {
    var s := Padded(n, width);
    assert s[..|s| - 1] == Padded(n / 10, width - 1);
    if width == 1 {
      assert Padded(n / 10, 0) == [];
    } else {
      assert n / 10 < Pow10(width - 1);
      PaddedValue(n / 10, width - 1, Pow10(width - 1));
    }
  }

  function Pow10(k: nat): int
  {
    if k == 0 then 1 else 10 * Pow10(k - 1)
  }

  /** The ISO date-only form of a date, as `toISOString().split('T')[0]` prints it. */
  function FormatIsoDate(d: CivilDate): (s: string)
    requires 0 <= d.year <= 9999 && 1 <= d.month <= 12 && 1 <= d.day <= 31
    ensures |s| == 10
  {
    Padded(d.year, 4) + "-" + Padded(d.month, 2) + "-" + Padded(d.day, 2)
  }

  /** Reading back a formatted date gives the date again. */
  lemma ParseFormatted(d: CivilDate)
    requires 0 <= d.year <= 9999 && 1 <= d.month <= 12 && 1 <= d.day <= 31
    ensures ParseIsoDate(FormatIsoDate(d)) == Some(d)
  {
    var s := FormatIsoDate(d);
    assert s[..4] == Padded(d.year, 4);
    assert s[5..7] == Padded(d.month, 2);
    assert s[8..] == Padded(d.day, 2);
    PaddedValue(d.year, 4, 10000);
    PaddedValue(d.month, 2, 100);
    PaddedValue(d.day, 2, 100);
  }
}
