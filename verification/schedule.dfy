/**
 * Category schedules (`CategoryManager`): validating what a user asks for
 * (`parse_schedule`), deciding whether a stored config is due at a given
 * moment (`should_run_now`) and describing it (`format_schedule`).
 */
module Schedule {
  import opened Wrappers
  import opened Text
  import opened Clock
  import opened Store

  const Frequencies: seq<string> := ["daily", "weekly", "biweekly", "monthly"]
  const Weekdays: seq<string> := ["monday", "tuesday", "wednesday", "thursday", "friday", "saturday", "sunday"]

  /** The normalised schedule `parse_schedule` hands back. */
  datatype ScheduleSpec = ScheduleSpec(kind: string, time: string, day: Option<string>, date: Option<int>)

  /** Either the schedule or the first error message. */
  datatype ParseResult = Accepted(schedule: ScheduleSpec) | Rejected(message: string)

  const TimeMessage: string := "Time must be in HH:MM format (e.g., 09:00)"
  const FrequencyMessage: string := "Frequency must be one of: daily, weekly, biweekly, monthly"
  const DateRequiredMessage: string := "Monthly requires a date (1-31)"
  const DateRangeMessage: string := "Monthly date must be between 1-31"
  const DayMessage: string := "Day must be one of: monday, tuesday, wednesday, thursday, friday, saturday, sunday"

  /** The frequency is quoted as the user wrote it, before lower-casing. */
  function DayRequiredMessage(frequency: string): string
  {
    frequency + " requires a day (e.g., monday)"
  }

  // ---------------------------------------------------------------------------
  // The time pattern `^([0-1]?[0-9]|2[0-3]):([0-5][0-9])$`.

  /** `[0-1]?[0-9]|2[0-3]` */
  predicate IsHourText(h: string)
  {
    || (|h| == 1 && IsDigit(h[0]))
    || (|h| == 2 && '0' <= h[0] <= '1' && IsDigit(h[1]))
    || (|h| == 2 && h[0] == '2' && '0' <= h[1] <= '3')
  }

  /** `[0-5][0-9]` */
  predicate IsMinuteText(m: string)
  {
    |m| == 2 && '0' <= m[0] <= '5' && IsDigit(m[1])
  }

  /** Hour, colon, minute and nothing else. */
  predicate IsClockText(t: string)
  {
    4 <= |t| <= 5 && t[|t| - 3] == ':' && IsHourText(t[..|t| - 3]) && IsMinuteText(t[|t| - 2..])
  }

  /** The text `$` sees the end of: Python's `$` also matches just before a final newline. */
  function ClockPart(t: string): (c: string)
    ensures |c| <= |t| && c == t[..|c|]
    ensures |c| >= |t| - 1
    ensures |c| < |t| <==> t != [] && t[|t| - 1] == '\n'
  {
    if t != [] && t[|t| - 1] == '\n' then t[..|t| - 1] else t
  }

  predicate TimeMatches(t: string)
  {
    IsClockText(ClockPart(t))
  }

  lemma OneDigitValue(h: string)
    requires |h| == 1 && IsDigit(h[0])
    ensures AllDigits(h) && DigitsValue(h) == DigitValue(h[0])
  {
    assert h == [] + [h[0]];
    DigitsValueAppend([], h[0]);
  }

  lemma TwoDigitsValue(h: string)
    requires |h| == 2 && IsDigit(h[0]) && IsDigit(h[1])
    ensures AllDigits(h) && DigitsValue(h) == 10 * DigitValue(h[0]) + DigitValue(h[1])
  {
    OneDigitValue(h[..1]);
    assert h == h[..1] + [h[1]];
    DigitsValueAppend(h[..1], h[1]);
  }

  /** `int(schedule_time.split(':')[0])`: the digits before the colon. */
  function ScheduleHour(t: string): (h: nat)
    requires TimeMatches(t)
    ensures h < 24
  {
    var c := ClockPart(t);
    var text := c[..|c| - 3];
    if |text| == 1 then OneDigitValue(text); DigitsValue(text)
    else TwoDigitsValue(text); DigitsValue(text)
  }

  /** `int(schedule_time.split(':')[1])`: the two digits after it (`int` ignores the newline). */
  function ScheduleMinute(t: string): (m: nat)
    requires TimeMatches(t)
    ensures m < 60
  {
    var c := ClockPart(t);
    var text := c[|c| - 2..];
    TwoDigitsValue(text);
    DigitsValue(text)
  }

  /** "HH:MM" with both fields zero-padded, for hours below 24 and minutes below 60. */
  function PaddedTime(hour: nat, minute: nat): string
    requires hour < 24 && minute < 60
  {
    [DigitChar(hour / 10), DigitChar(hour % 10), ':', DigitChar(minute / 10), DigitChar(minute % 10)]
  }

  /** Every zero-padded clock time is accepted and read back as the same hour and minute. */
  lemma PaddedTimeRoundTrip(hour: nat, minute: nat)
    requires hour < 24 && minute < 60
    ensures TimeMatches(PaddedTime(hour, minute))
    ensures ScheduleHour(PaddedTime(hour, minute)) == hour
    ensures ScheduleMinute(PaddedTime(hour, minute)) == minute
  {
    var t := PaddedTime(hour, minute);
    assert ClockPart(t) == t;
    assert t[..2] == [t[0], t[1]] && t[3..] == [t[3], t[4]];
    TwoDigitsValue(t[..2]);
    TwoDigitsValue(t[3..]);
  }

  /** A clock time written out: the hour with one digit (below 10) or two, a colon, a two-digit minute. */
  function ClockText(hour: nat, minute: nat, padded: bool): string
    requires hour < 24 && minute < 60 && (!padded ==> hour < 10)
  {
    if padded then PaddedTime(hour, minute)
    else [DigitChar(hour), ':', DigitChar(minute / 10), DigitChar(minute % 10)]
  }

  /**
   * Every time from 0:00 to 23:59, written with or without a leading zero and
   * with or without one final newline, is accepted and read back unchanged.
   */
  lemma ClockTextRoundTrip(hour: nat, minute: nat, padded: bool, newline: bool)
    requires hour < 24 && minute < 60 && (!padded ==> hour < 10)
    ensures var t := ClockText(hour, minute, padded) + (if newline then "\n" else "");
            TimeMatches(t) && ScheduleHour(t) == hour && ScheduleMinute(t) == minute
  {
    var c := ClockText(hour, minute, padded);
    var t := c + (if newline then "\n" else "");
    assert ClockPart(t) == c by {
      if newline { assert t[..|t| - 1] == c; } else { assert t == c; }
    }
    assert c[|c| - 2..] == [c[|c| - 2], c[|c| - 1]];
    TwoDigitsValue(c[|c| - 2..]);
    if padded {
      assert c[..2] == [c[0], c[1]];
      TwoDigitsValue(c[..2]);
    } else {
      assert c[..1] == [c[0]];
      OneDigitValue(c[..1]);
    }
  }

  /** Conversely, every text the pattern accepts is such a clock text, with its own hour and minute. */
  lemma MatchedIsClockText(t: string)
    requires TimeMatches(t)
    ensures |ClockPart(t)| != 5 ==> ScheduleHour(t) < 10
    ensures ClockPart(t) == ClockText(ScheduleHour(t), ScheduleMinute(t), |ClockPart(t)| == 5)
  {
    var c := ClockPart(t);
    var hour, minute := ScheduleHour(t), ScheduleMinute(t);
    TwoDigitsValue(c[|c| - 2..]);
    DigitCharOfValue(c[|c| - 2]);
    DigitCharOfValue(c[|c| - 1]);
    if |c| == 5 {
      TwoDigitsValue(c[..2]);
      DigitCharOfValue(c[0]);
      DigitCharOfValue(c[1]);
      assert c == [c[0], c[1], ':', c[3], c[4]];
    } else {
      OneDigitValue(c[..1]);
      DigitCharOfValue(c[0]);
      assert c == [c[0], ':', c[2], c[3]];
    }
  }

  // ---------------------------------------------------------------------------
  // parse_schedule

  /** A day counts as given when it is a non-empty string. */
  predicate DayGiven(day: Option<string>)
  {
    day.Some? && day.value != ""
  }

  predicate NeedsDay(kind: string)
  {
    kind == "weekly" || kind == "biweekly"
  }

  /** Everything `parse_schedule` checks, as one condition. */
  predicate Acceptable(frequency: string, time: string, day: Option<string>, date: Option<int>)
  {
    && TimeMatches(time)
    && Lower(frequency) in Frequencies
    && (NeedsDay(Lower(frequency)) ==> DayGiven(day))
    && (Lower(frequency) == "monthly" ==> date.Some? && 1 <= date.value <= 31)
    && (DayGiven(day) ==> Lower(day.value) in Weekdays)
  }

  /** `parse_schedule`: the checks in their order, each with its own message. */
  function ParseSchedule(frequency: string, time: string, day: Option<string>, date: Option<int>): (r: ParseResult)
    ensures r.Accepted? <==> Acceptable(frequency, time, day, date)
    ensures r.Accepted? ==> r.schedule == ScheduleSpec(Lower(frequency), time, if DayGiven(day) then Some(Lower(day.value)) else None, date)
    ensures !TimeMatches(time) ==> r == Rejected(TimeMessage)
    ensures TimeMatches(time) && Lower(frequency) !in Frequencies ==> r == Rejected(FrequencyMessage)
    ensures TimeMatches(time) && Lower(frequency) in Frequencies && NeedsDay(Lower(frequency)) && !DayGiven(day) ==>
              r == Rejected(DayRequiredMessage(frequency))
    ensures TimeMatches(time) && Lower(frequency) == "monthly" && (date.None? || date.value == 0) ==>
              r == Rejected(DateRequiredMessage)
    ensures TimeMatches(time) && Lower(frequency) == "monthly" && date.Some? && date.value != 0 && !(1 <= date.value <= 31) ==>
              r == Rejected(DateRangeMessage)
    ensures TimeMatches(time) && Lower(frequency) in Frequencies && (NeedsDay(Lower(frequency)) ==> DayGiven(day)) &&
            (Lower(frequency) == "monthly" ==> date.Some? && 1 <= date.value <= 31) &&
            DayGiven(day) && Lower(day.value) !in Weekdays ==>
              r == Rejected(DayMessage)
    ensures r.Rejected? && r.message == DayMessage ==> DayGiven(day) && Lower(day.value) !in Weekdays
  {
    if !TimeMatches(time) then Rejected(TimeMessage)
    else
      var kind := Lower(frequency);
      if kind !in Frequencies then Rejected(FrequencyMessage)
      else if NeedsDay(kind) && !DayGiven(day) then Rejected(DayRequiredMessage(frequency))
      else if kind == "monthly" && (date.None? || date.value == 0) then Rejected(DateRequiredMessage)
      else if kind == "monthly" && (date.value < 1 || date.value > 31) then Rejected(DateRangeMessage)
      else if DayGiven(day) && Lower(day.value) !in Weekdays then Rejected(DayMessage)
      else Accepted(ScheduleSpec(kind, time, if DayGiven(day) then Some(Lower(day.value)) else None, date))
  }

  /** Parsing an accepted schedule's own fields accepts it again, unchanged. */
  lemma ParseAcceptsItsOutput(frequency: string, time: string, day: Option<string>, date: Option<int>)
    requires ParseSchedule(frequency, time, day, date).Accepted?
    ensures var s := ParseSchedule(frequency, time, day, date).schedule;
            ParseSchedule(s.kind, s.time, s.day, s.date) == Accepted(s)
  {
    LowerIdempotent(frequency);
    if DayGiven(day) {
      LowerIdempotent(day.value);
      assert Lower(day.value) != "" by { assert |Lower(day.value)| == |day.value|; }
    }
  }

  /** `day_map.get(day)`: Monday is 0; the lookup is exact, so an unknown name gives nothing. */
  function DayNumber(name: string): (n: Option<int>)
    ensures n.Some? <==> name in Weekdays
    ensures n.Some? ==> 0 <= n.value < 7 && Weekdays[n.value] == name
  {
    if name == "monday" then Some(0)
    else if name == "tuesday" then Some(1)
    else if name == "wednesday" then Some(2)
    else if name == "thursday" then Some(3)
    else if name == "friday" then Some(4)
    else if name == "saturday" then Some(5)
    else if name == "sunday" then Some(6)
    else None
  }

  /** A weekly or biweekly schedule that was accepted names a day the weekday lookup knows. */
  lemma AcceptedDayIsKnown(frequency: string, time: string, day: Option<string>, date: Option<int>)
    requires ParseSchedule(frequency, time, day, date).Accepted?
    requires NeedsDay(ParseSchedule(frequency, time, day, date).schedule.kind)
    ensures var s := ParseSchedule(frequency, time, day, date).schedule;
            s.day.Some? && DayNumber(s.day.value).Some?
  {
  }

  /** An accepted monthly schedule has a date in 1..31. */
  lemma AcceptedMonthlyHasDate(frequency: string, time: string, day: Option<string>, date: Option<int>)
    requires ParseSchedule(frequency, time, day, date).Accepted?
    requires ParseSchedule(frequency, time, day, date).schedule.kind == "monthly"
    ensures date.Some? && 1 <= date.value <= 31
  {
  }

  // ---------------------------------------------------------------------------
  // should_run_now

  /** What `should_run_now` needs of its config: a time the pattern accepts and a valid last run. */
  predicate Runnable(c: CategoryConfig)
  {
    TimeMatches(c.scheduleTime) && (c.lastRun.Some? ==> ValidDateTime(c.lastRun.value))
  }

  /** `should_run_now`, with the clock reading `now` as a parameter. The config's status plays no part. */
  function ShouldRunNow(c: CategoryConfig, now: DateTime): (due: bool)
    requires Runnable(c) && ValidDateTime(now)
    ensures due ==> AtScheduledMinute(c, now) && c.scheduleType in Frequencies
  {
    if now.hour != ScheduleHour(c.scheduleTime) || now.minute != ScheduleMinute(c.scheduleTime) then false
    else if c.scheduleType == "daily" then true
    else if NeedsDay(c.scheduleType) then
      var target := if c.scheduleDay.Some? then DayNumber(c.scheduleDay.value) else None;
      if target != Some(Weekday(now)) then false
      else if c.scheduleType == "biweekly" && c.lastRun.Some? && DaysBetween(now, c.lastRun.value) < 13 then false
      else true
    else if c.scheduleType == "monthly" then c.scheduleDate == Some(now.day)
    else false
  }

  /** The hour and minute of `now` are those of the schedule. */
  predicate AtScheduledMinute(c: CategoryConfig, now: DateTime)
    requires TimeMatches(c.scheduleTime)
  {
    now.hour == ScheduleHour(c.scheduleTime) && now.minute == ScheduleMinute(c.scheduleTime)
  }

  /** The day named by the config is today's weekday. */
  predicate OnScheduledWeekday(c: CategoryConfig, now: DateTime)
    requires ValidDateTime(now)
  {
    c.scheduleDay.Some? && DayNumber(c.scheduleDay.value) == Some(Weekday(now))
  }

  /** Nothing is due outside its scheduled minute: the match is exact, with no tolerance. */
  lemma DueOnlyAtScheduledMinute(c: CategoryConfig, now: DateTime)
    requires Runnable(c) && ValidDateTime(now)
    requires ShouldRunNow(c, now)
    ensures AtScheduledMinute(c, now)
  {
  }

  lemma DailyDue(c: CategoryConfig, now: DateTime)
    requires Runnable(c) && ValidDateTime(now) && c.scheduleType == "daily"
    ensures ShouldRunNow(c, now) <==> AtScheduledMinute(c, now)
  {
  }

  lemma WeeklyDue(c: CategoryConfig, now: DateTime)
    requires Runnable(c) && ValidDateTime(now) && c.scheduleType == "weekly"
    ensures ShouldRunNow(c, now) <==> AtScheduledMinute(c, now) && OnScheduledWeekday(c, now)
  {
  }

  /** A biweekly config is due on its weekday unless it ran fewer than 13 whole days ago. */
  lemma BiweeklyDue(c: CategoryConfig, now: DateTime)
    requires Runnable(c) && ValidDateTime(now) && c.scheduleType == "biweekly"
    ensures ShouldRunNow(c, now) <==>
              AtScheduledMinute(c, now) && OnScheduledWeekday(c, now) &&
              (c.lastRun.None? || DaysBetween(now, c.lastRun.value) >= 13)
  {
  }

  lemma MonthlyDue(c: CategoryConfig, now: DateTime)
    requires Runnable(c) && ValidDateTime(now) && c.scheduleType == "monthly"
    ensures ShouldRunNow(c, now) <==> AtScheduledMinute(c, now) && c.scheduleDate == Some(now.day)
  {
  }

  lemma OtherKindsNeverDue(c: CategoryConfig, now: DateTime)
    requires Runnable(c) && ValidDateTime(now) && c.scheduleType !in Frequencies
    ensures !ShouldRunNow(c, now)
  {
  }

  /** A paused config is as due as an active one: only the scheduler's listing filters on status. */
  lemma StatusIsIgnored(c: CategoryConfig, now: DateTime, status: string)
    requires Runnable(c) && ValidDateTime(now)
    ensures ShouldRunNow(c.(status := status), now) == ShouldRunNow(c, now)
  {
  }

  /** A monthly date past the end of the current month never comes up that month (31 in April, say). */
  lemma MonthlyDateBeyondMonthEnd(c: CategoryConfig, now: DateTime)
    requires Runnable(c) && ValidDateTime(now) && c.scheduleType == "monthly"
    requires c.scheduleDate.Some? && c.scheduleDate.value > DaysInMonth(now.year, now.month)
    ensures !ShouldRunNow(c, now)
  {
  }

  /**
   * A biweekly config that last ran at this very time of day `k` days ago:
   * a week later it is not due, two weeks later (on its weekday) it is.
   */
  lemma BiweeklyAfterDays(c: CategoryConfig, now: DateTime, k: int)
    requires Runnable(c) && ValidDateTime(now) && c.scheduleType == "biweekly"
    requires AtScheduledMinute(c, now) && OnScheduledWeekday(c, now)
    requires c.lastRun.Some? && ValidDateTime(c.lastRun.value)
    requires c.lastRun.value.(year := now.year, month := now.month, day := now.day) == now
    requires Ordinal(now) - Ordinal(c.lastRun.value) == k
    ensures ShouldRunNow(c, now) <==> k >= 13
  {
    DaysBetweenSameClockTime(now, c.lastRun.value);
  }

  /** A weekly or biweekly config that is due today is not due at the same minute tomorrow. */
  lemma WeeklyNotDueNextDay(c: CategoryConfig, now: DateTime)
    requires Runnable(c) && ValidDateTime(now) && NeedsDay(c.scheduleType)
    requires !(now.year == 9999 && now.month == 12 && now.day == 31)
    requires ShouldRunNow(c, now)
    ensures !ShouldRunNow(c, NextDay(now))
  {
    WeekdayNextDay(now);
  }

  /** 1 January 2024 was a Monday. */
  lemma NewYear2024IsMonday()
    ensures Weekday(DateTime(2024, 1, 1, 0, 0, 0, 0)) == 0
  {
  }

  // ---------------------------------------------------------------------------
  // format_schedule

  /** `str()` of an optional integer: Python prints a missing one as "None". */
  function DateText(date: Option<int>): string
  {
    if date.Some? then IntToString(date.value) else "None"
  }

  const WeeklyPrefix: string := "Weekly ("
  const BiweeklyPrefix: string := "Biweekly ("
  const MonthlyPrefix: string := "Monthly (day "
  const UnknownSchedule: string := "Unknown schedule"

  /** What `format_schedule` needs: weekly kinds have a day (`None.capitalize()` raises). */
  predicate Formattable(c: CategoryConfig)
  {
    NeedsDay(c.scheduleType) ==> c.scheduleDay.Some?
  }

  /** `format_schedule` */
  function FormatSchedule(c: CategoryConfig): string
    requires Formattable(c)
  {
    if c.scheduleType == "daily" then "Daily at " + c.scheduleTime
    else if c.scheduleType == "weekly" then WeeklyPrefix + Capitalize(c.scheduleDay.value) + ") at " + c.scheduleTime
    else if c.scheduleType == "biweekly" then BiweeklyPrefix + Capitalize(c.scheduleDay.value) + ") at " + c.scheduleTime
    else if c.scheduleType == "monthly" then MonthlyPrefix + DateText(c.scheduleDate) + ") at " + c.scheduleTime
    else UnknownSchedule
  }

  /** Every known kind of schedule is described as ending with " at " and its time. */
  lemma FormatEndsWithTime(c: CategoryConfig)
    requires Formattable(c) && c.scheduleType in Frequencies
    ensures EndsWith(FormatSchedule(c), " at " + c.scheduleTime)
  {
    var f := FormatSchedule(c);
    var tail := " at " + c.scheduleTime;
    var head := if c.scheduleType == "daily" then "Daily"
                else if c.scheduleType == "weekly" then WeeklyPrefix + Capitalize(c.scheduleDay.value) + ")"
                else if c.scheduleType == "biweekly" then BiweeklyPrefix + Capitalize(c.scheduleDay.value) + ")"
                else MonthlyPrefix + DateText(c.scheduleDate) + ")";
    assert f == head + tail;
    assert f[|f| - |tail|..] == tail;
  }

  /** "Unknown schedule" is shown exactly for the kinds outside the four. */
  lemma FormatUnknownIffOtherKind(c: CategoryConfig)
    requires Formattable(c)
    ensures FormatSchedule(c) == UnknownSchedule <==> c.scheduleType !in Frequencies
  {
    var f := FormatSchedule(c);
    if c.scheduleType in Frequencies {
      assert f[0] != UnknownSchedule[0];
    }
  }

  /**
   * A weekly description names its day, capitalised: the first letter upper
   * case, the rest lower case, and lower-cased it is the stored day lower-cased.
   */
  lemma FormatWeeklyNamesDay(c: CategoryConfig)
    requires Formattable(c) && c.scheduleType == "weekly"
    ensures var d := c.scheduleDay.value;
            var slice := FormatSchedule(c)[|WeeklyPrefix|..|WeeklyPrefix| + |d|];
            |WeeklyPrefix| + |d| <= |FormatSchedule(c)| &&
            slice == Capitalize(d) &&
            (d != [] ==> slice[0] == UpperChar(d[0]) && slice[1..] == Lower(d[1..])) &&
            Lower(slice) == Lower(d)
  {
    var d := c.scheduleDay.value;
    var cap := Capitalize(d);
    var f := FormatSchedule(c);
    assert f == WeeklyPrefix + (cap + (") at " + c.scheduleTime));
    assert f[|WeeklyPrefix|..|WeeklyPrefix| + |d|] == cap;
    CapitalizeKeepsLetters(d);
  }

  /** A monthly description carries the date in decimal, and reading those digits gives the date back. */
  lemma FormatMonthlyShowsDate(c: CategoryConfig)
    requires Formattable(c) && c.scheduleType == "monthly"
    requires c.scheduleDate.Some? && c.scheduleDate.value >= 0
    ensures var digits := NatToString(c.scheduleDate.value);
            |MonthlyPrefix| + |digits| <= |FormatSchedule(c)| &&
            FormatSchedule(c)[|MonthlyPrefix|..|MonthlyPrefix| + |digits|] == digits &&
            DigitsValue(digits) == c.scheduleDate.value
  {
    var digits := NatToString(c.scheduleDate.value);
    var f := FormatSchedule(c);
    assert DateText(c.scheduleDate) == digits;
    assert f == MonthlyPrefix + (digits + (") at " + c.scheduleTime));
    assert f[|MonthlyPrefix|..|MonthlyPrefix| + |digits|] == digits;
    NatToStringRoundTrip(c.scheduleDate.value);
  }
}
