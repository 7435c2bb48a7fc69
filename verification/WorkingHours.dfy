/** Whether a room may be opened at a moment: the checks of the working-hours validator,
    and the one rule they all decide. */
module WorkingHours {
  import opened Options

  datatype Outcome =
    | Open
    | OutsideHours
    | Holiday
    | OutsideHolidayHours
    | Unparsable   // the text of a configured time does not parse

  /** The text of a time in the sector's configuration. */
  datatype TimeText = Missing | Garbled | At(time: int)

  datatype Interval = Interval(start: TimeText, end: TimeText) | NotAnInterval

  datatype DayConfig = One(start: TimeText, end: TimeText) | Many(intervals: seq<Interval>) | Other

  datatype StaticHoliday = StaticHoliday(closed: bool, start: TimeText, end: TimeText)

  /** The working-hours configuration of a sector; empty entries are left out. */
  datatype Config = Config(
    closedWeekdays: set<Weekday>,
    byDate: map<int, StaticHoliday>,
    byMonthDay: map<int, StaticHoliday>,
    schedules: map<Weekday, DayConfig>)

  /** Monday is 1. */
  type Weekday = d: int | 1 <= d <= 7 witness 1

  /** A moment in the sector's time zone. */
  datatype Moment = Moment(date: int, monthDay: int, weekday: Weekday, time: int)

  /** A configurable holiday, as the cache keeps it. */
  datatype Entry = Closed(description: string) | Hours(start: int, end: int, description: string)

  // ---- The rule ----

  predicate Within(start: TimeText, end: TimeText, time: int) {
    start.At? && end.At? && start.time <= time <= end.time
  }

  predicate Given(start: TimeText, end: TimeText) {
    !start.Missing? && !end.Missing?
  }

  predicate Readable(start: TimeText, end: TimeText) {
    start.At? && end.At?
  }

  predicate Allows(i: Interval, time: int) {
    i.Interval? && Within(i.start, i.end, time)
  }

  predicate ScheduleAllows(day: DayConfig, time: int) {
    match day
    case One(start, end) => Within(start, end, time)
    case Many(intervals) => exists i | i in intervals :: Allows(i, time)
    case Other => false
  }

  /** A static holiday of the date comes before one of the day of the year. */
  function StaticFor(c: Config, m: Moment): Option<StaticHoliday> {
    if m.date in c.byDate then Some(c.byDate[m.date])
    else if m.monthDay in c.byMonthDay then Some(c.byMonthDay[m.monthDay])
    else None
  }

  predicate StaticAllows(s: StaticHoliday, time: int) {
    !s.closed && (Given(s.start, s.end) ==> Within(s.start, s.end, time))
  }

  predicate HolidayAllows(e: Entry, time: int) {
    e.Hours? && e.start <= time <= e.end
  }

  /** The whole rule. A closed weekday beats everything; a configurable holiday replaces
      the schedule; a static holiday only adds to it. */
  predicate IsOpen(config: Option<Config>, holiday: Option<Entry>, m: Moment) {
    config.Some? ==>
      var c := config.value;
      && m.weekday !in c.closedWeekdays
      && if holiday.Some? then HolidayAllows(holiday.value, m.time)
         else
           && (StaticFor(c, m).Some? ==> StaticAllows(StaticFor(c, m).value, m.time))
           && m.weekday in c.schedules && ScheduleAllows(c.schedules[m.weekday], m.time)
  }

  /** Why a room is refused: the first of the failing checks. */
  function Refusal(c: Config, holiday: Option<Entry>, m: Moment): Outcome {
    if m.weekday in c.closedWeekdays then OutsideHours
    else if holiday.Some? then if holiday.value.Closed? then Holiday else OutsideHours
    else if StaticFor(c, m).Some? && !StaticAllows(StaticFor(c, m).value, m.time) then
      var s := StaticFor(c, m).value;
      if s.closed then OutsideHours else if Readable(s.start, s.end) then OutsideHolidayHours else Unparsable
    else if m.weekday in c.schedules && c.schedules[m.weekday].One? then
      var i := c.schedules[m.weekday];
      if Given(i.start, i.end) && !Readable(i.start, i.end) then Unparsable else OutsideHours
    else OutsideHours
  }

  function Decision(config: Option<Config>, holiday: Option<Entry>, m: Moment): Outcome {
    if IsOpen(config, holiday, m) then Open else Refusal(config.value, holiday, m)
  }

  // ---- The checks ----

  function ValidateHoliday(e: Entry, time: int): Outcome {
    if e.Closed? then Holiday
    else if e.start <= time <= e.end then Open
    else OutsideHours
  }

  function CheckStaticHolidays(c: Config, m: Moment): Outcome {
    match StaticFor(c, m)
    case None => Open
    case Some(s) =>
      if s.closed then OutsideHours
      else if s.start.Missing? || s.end.Missing? then Open
      else if s.start.Garbled? || s.end.Garbled? then Unparsable
      else if s.start.time <= m.time <= s.end.time then Open
      else OutsideHolidayHours
  }

  /** One interval, or any of several; an interval of several that does not parse is
      passed over. */
  method ValidateDaySchedules(day: DayConfig, time: int) returns (outcome: Outcome)
    ensures outcome.Open? <==> ScheduleAllows(day, time)
    ensures outcome.Unparsable? <==> day.One? && Given(day.start, day.end) && !Readable(day.start, day.end)
    ensures outcome in {Open, Unparsable, OutsideHours}
  {
    match day {
      case One(start, end) =>
        if start.Missing? || end.Missing? {
          return OutsideHours;
        }
        if start.Garbled? || end.Garbled? {
          return Unparsable;
        }
        return if start.time <= time <= end.time then Open else OutsideHours;
      case Many(intervals) =>
        var anyOk := false;
        for k := 0 to |intervals|
          invariant !anyOk && forall j | 0 <= j < k :: !Allows(intervals[j], time)
        {
          var i := intervals[k];
          if i.NotAnInterval? || i.start.Missing? || i.end.Missing? || i.start.Garbled? || i.end.Garbled? {
            continue;
          }
          if i.start.time <= time <= i.end.time {
            assert Allows(intervals[k], time);
            anyOk := true;
            break;
          }
        }
        return if anyOk then Open else OutsideHours;
      case Other =>
        return OutsideHours;
    }
  }

  /** The path of working days, after the holiday lookup. */
  method ValidateWorkingDay(c: Config, holiday: Option<Entry>, m: Moment) returns (outcome: Outcome)
    requires m.weekday !in c.closedWeekdays && m.weekday <= 5
    ensures outcome == Decision(Some(c), holiday, m)
  {
    if holiday.Some? {
      return ValidateHoliday(holiday.value, m.time);
    } else {
      outcome := CheckStaticHolidays(c, m);
      if !outcome.Open? {
        return;
      }
    }
    if m.weekday !in c.schedules {
      return OutsideHours;
    }
    outcome := ValidateDaySchedules(c.schedules[m.weekday], m.time);
  }

  /** The path of all other days: weekends. */
  method FullValidation(c: Config, holiday: Option<Entry>, m: Moment) returns (outcome: Outcome)
    requires m.weekday !in c.closedWeekdays && !(m.weekday <= 5)
    ensures outcome == Decision(Some(c), holiday, m)
  {
    if holiday.Some? {
      return ValidateHoliday(holiday.value, m.time);
    }
    outcome := CheckStaticHolidays(c, m);
    if !outcome.Open? {
      return;
    }
    if m.weekday == 6 || m.weekday == 7 {
      if m.weekday !in c.schedules {
        return OutsideHours;
      }
      outcome := ValidateDaySchedules(c.schedules[m.weekday], m.time);
    }
  }
}
