/** Off-peak eligibility of a booking date: the date's weekday name is looked
    up in the configured list of off-peak days, which defaults to Monday and
    Tuesday when no settings record exists. */
module OffPeak {
  import opened Common
  import opened Calendar

  /** What `Settings.findOne()` produced: no record, a record with its
      `offPeakDays`, or a failure of the read. */
  datatype SettingsLookup = NoSettings | Settings(offPeakDays: seq<string>) | LookupFailed

  const DefaultOffPeakDays: seq<string> := ["Monday", "Tuesday"]

  /** The off-peak list in force (for a read that succeeded). */
  function OffPeakDays(lookup: SettingsLookup): (days: seq<string>)
    requires !lookup.LookupFailed?
    ensures lookup.NoSettings? ==> days == DefaultOffPeakDays
    ensures lookup.Settings? ==> days == lookup.offPeakDays
  {
    if lookup.Settings? then lookup.offPeakDays else DefaultOffPeakDays
  }

  /** The long English weekday name of the date string, or "Invalid Date" when
      the string is not a date. */
  function DayName(date: string): (name: string)
    ensures ParseIsoDate(date).None? <==> name == InvalidDateName
    ensures ParseIsoDate(date).Some? ==> name == WeekdayName(WeekdayOf(ParseIsoDate(date).value))
  {
    match ParseIsoDate(date)
    case None => InvalidDateName
    case Some(d) =>
      WeekdayNamesDistinct(WeekdayOf(d), WeekdayOf(d));
      WeekdayName(WeekdayOf(d))
  }

  /** `checkOffPeakDay(date)`: membership of the day name in the off-peak list;
      a failed settings read gives false rather than an error. */
  function CheckOffPeakDay(date: string, lookup: SettingsLookup): (r: bool)
    ensures lookup.LookupFailed? ==> !r
    ensures !lookup.LookupFailed? ==> (r <==> DayName(date) in OffPeakDays(lookup))
  {
    match lookup
    case LookupFailed => false
    case _ => DayName(date) in OffPeakDays(lookup)
  }

  /** With no settings record, a date is off-peak exactly when it is a real
      date falling on a Monday or a Tuesday. */
  lemma DefaultIsMondayTuesday(date: string)
    ensures CheckOffPeakDay(date, NoSettings) <==>
              ParseIsoDate(date).Some? && WeekdayOf(ParseIsoDate(date).value) in {Monday, Tuesday}
  {
    match ParseIsoDate(date)
    case None =>
      assert DayName(date) == InvalidDateName;
      assert InvalidDateName != "Monday" && InvalidDateName != "Tuesday";
    case Some(d) =>
      var w := WeekdayOf(d);
      WeekdayNamesDistinct(w, Monday);
      WeekdayNamesDistinct(w, Tuesday);
  }

  /** A list naming only weekdays never makes an unparseable date off-peak;
      only a list that itself contains "Invalid Date" would. */
  lemma InvalidDateNeverOffPeak(date: string, lookup: SettingsLookup)
    requires ParseIsoDate(date).None?
    requires lookup.Settings? ==> InvalidDateName !in lookup.offPeakDays
    ensures !CheckOffPeakDay(date, lookup)
  {
    if !lookup.LookupFailed? {
      assert DayName(date) == InvalidDateName;
      assert InvalidDateName != "Monday" && InvalidDateName != "Tuesday";
    }
  }

  /** Under the default list, the day after a Tuesday is never off-peak and
      the day after a Monday always is. */
  lemma DefaultAcrossDays(d: CivilDate)
    requires IsCalendarDate(d) && 0 <= d.year < 9999
    ensures WeekdayOf(d) == Monday ==> CheckOffPeakDay(FormatIsoDate(NextDay(d)), NoSettings)
    ensures WeekdayOf(d) == Tuesday ==> !CheckOffPeakDay(FormatIsoDate(NextDay(d)), NoSettings)
  {
    var n := NextDay(d);
    WeekdaysCycle(d);
    ParseFormatted(n);
    DefaultIsMondayTuesday(FormatIsoDate(n));
    assert WeekdayIndex(WeekdayOf(d)) == 1 ==> WeekdayIndex(WeekdayOf(n)) == 2;
    assert WeekdayIndex(WeekdayOf(d)) == 2 ==> WeekdayIndex(WeekdayOf(n)) == 3;
  }

  lemma FormattedExample(d: CivilDate, s: string)
    requires 0 <= d.year <= 9999 && 1 <= d.month <= 12 && 1 <= d.day <= 31
    requires FormatIsoDate(d) == s
    ensures ParseIsoDate(s) == Some(d)
  {
    ParseFormatted(d);
  }

  /** 3 June 2024 was a Monday and 5 June 2024 a Wednesday. */
  lemma June3IsMonday()
    ensures WeekdayOf(CivilDate(2024, 6, 3)) == Monday
  {
    assert (DaysFromCivil(CivilDate(2024, 6, 3)) + 4) % 7 == 1;
  }

  lemma June5IsWednesday()
    ensures WeekdayOf(CivilDate(2024, 6, 5)) == Wednesday
  {
    assert (DaysFromCivil(CivilDate(2024, 6, 5)) + 4) % 7 == 3;
  }

  /** 3 June 2024 was a Monday: eligible under the default list. */
  lemma MondayExample()
    ensures CheckOffPeakDay("2024-06-03", NoSettings)
  {
    FormattedExample(CivilDate(2024, 6, 3), "2024-06-03");
    June3IsMonday();
    DefaultIsMondayTuesday("2024-06-03");
  }

  /** 5 June 2024 was a Wednesday: not eligible under the default list, but
      eligible once the settings name Wednesday. */
  lemma WednesdayExample()
    ensures !CheckOffPeakDay("2024-06-05", NoSettings)
    ensures CheckOffPeakDay("2024-06-05", Settings(["Wednesday"]))
  {
    FormattedExample(CivilDate(2024, 6, 5), "2024-06-05");
    June5IsWednesday();
    DefaultIsMondayTuesday("2024-06-05");
  }
}
