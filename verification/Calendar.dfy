/** Gregorian calendar arithmetic and the next occurrence of a schedule, on the wall clock of one
    time zone.
  */
module Calendar {

  const HOUR: int := 3_600_000_000
  const DAY: int := 86_400_000_000

  predicate IsLeap(y: int) {
    y % 4 == 0 && (y % 100 != 0 || y % 400 == 0)
  }

  function DaysIn(y: int, m: int): int {
    if m == 2 then (if IsLeap(y) then 29 else 28)
    else if m == 4 || m == 6 || m == 9 || m == 11 then 30
    else 31
  }

  function NextMonth(y: nat, m: nat): (nat, nat) {
    if m == 12 then (y + 1, 1) else (y, m + 1)
  }

  function PreviousMonth(y: nat, m: nat): (nat, nat)
    requires y >= 1 && m >= 1
  {
    if m == 1 then (y - 1, 12) else (y, m - 1)
  }

  /** How many days lie before a month, counting from the beginning of year 1. */
  function DaysBefore(y: nat, m: nat): int
    requires y >= 1 && 1 <= m <= 12
    decreases 12 * y + m
  {
    if y == 1 && m == 1 then 0
    else
      var (py, pm) := PreviousMonth(y, m);
      DaysBefore(py, pm) + DaysIn(py, pm)
  }

  datatype Date = Date(year: nat, month: nat, day: nat) {
    predicate Valid() {
      year >= 1 && 1 <= month <= 12 && 1 <= day <= DaysIn(year, month)
    }

    /** Days since the first of January of year 1, which is day 1 and a Monday. */
    function Ordinal(): int
      requires Valid()
    {
      DaysBefore(year, month) + day
    }

    /** Monday is 0. */
    function Weekday(): int
      requires Valid()
    {
      (Ordinal() + 6) % 7
    }
  }

  /** A wall-clock time: a day and the microseconds since its midnight. */
  datatype Moment = Moment(date: Date, time: int) {
    predicate Valid() {
      date.Valid() && 0 <= time < DAY
    }

    function Value(): int
      requires Valid()
    {
      date.Ordinal() * DAY + time
    }
  }

  // ---- months in a row

  function MonthIndex(y: int, m: int): int {
    12 * y + m - 1
  }

  /** Every day of an earlier month comes before every day of a later one. */
  lemma {:induction false} MonthsInOrder(y: nat, m: nat, y': nat, m': nat)
    requires y >= 1 && 1 <= m <= 12 && y' >= 1 && 1 <= m' <= 12
    requires MonthIndex(y, m) < MonthIndex(y', m')
    ensures DaysBefore(y, m) + DaysIn(y, m) <= DaysBefore(y', m')
    decreases MonthIndex(y', m')
  {
    var (py, pm) := PreviousMonth(y', m');
    if MonthIndex(y, m) < MonthIndex(py, pm) {
      MonthsInOrder(y, m, py, pm);
    }
  }

  lemma LaterMonth(a: Date, b: Date)
    requires a.Valid() && b.Valid() && MonthIndex(a.year, a.month) < MonthIndex(b.year, b.month)
    ensures a.Ordinal() < b.Ordinal()
  {
    MonthsInOrder(a.year, a.month, b.year, b.month);
  }

  /** The day count in closed form, as the standard library computes it. */
  function DaysBeforeYear(y: nat): int
    requires y >= 1
  {
    (y - 1) * 365 + (y - 1) / 4 - (y - 1) / 100 + (y - 1) / 400
  }

  function DaysBeforeMonth(y: int, m: int): int
    requires 1 <= m <= 12
  {
    [0, 31, 59, 90, 120, 151, 181, 212, 243, 273, 304, 334][m - 1] + if m > 2 && IsLeap(y) then 1 else 0
  }

  lemma Every4(y: nat)
    requires y >= 1
    ensures y / 4 == (y - 1) / 4 + if y % 4 == 0 then 1 else 0
  {
  }

  lemma Every100(y: nat)
    requires y >= 1
    ensures y / 100 == (y - 1) / 100 + if y % 100 == 0 then 1 else 0
  {
  }

  lemma Every400(y: nat)
    requires y >= 1
    ensures y / 400 == (y - 1) / 400 + if y % 400 == 0 then 1 else 0
  {
  }

  lemma LeapParts(y: nat)
    ensures (if IsLeap(y) then 1 else 0)
         == (if y % 4 == 0 then 1 else 0) - (if y % 100 == 0 then 1 else 0) + (if y % 400 == 0 then 1 else 0)
  {
    if y % 100 == 0 {
      assert y % 4 == 0 by {
        assert y == 4 * (25 * (y / 100));
      }
    }
    if y % 400 == 0 {
      assert y % 100 == 0 by {
        assert y == 100 * (4 * (y / 400));
      }
    }
  }

  lemma {:induction false} ClosedForm(y: nat, m: nat)
    requires y >= 1 && 1 <= m <= 12
    ensures DaysBefore(y, m) == DaysBeforeYear(y) + DaysBeforeMonth(y, m)
    decreases 12 * y + m
  {
    if m > 1 {
      ClosedForm(y, m - 1);
    } else if y > 1 {
      ClosedForm(y - 1, 12);
      YearAfter(y - 1);
    }
  }

  lemma YearAfter(y: nat)
    requires y >= 1
    ensures DaysBeforeYear(y + 1) == DaysBeforeYear(y) + 365 + if IsLeap(y) then 1 else 0
  {
    Every4(y);
    Every100(y);
    Every400(y);
    LeapParts(y);
  }

  /** A day of a known weekday: the first of January 1970 was a Thursday. */
  lemma FirstOf1970(d: Date)
    requires d.year == 1970 && d.month == 1 && d.day == 1
    ensures d.Valid() && d.Ordinal() == 719163 && d.Weekday() == 3
  {
    ClosedForm(d.year, d.month);
  }

  // ---- days in a row

  function NextDay(d: Date): (r: Date)
    requires d.Valid()
    ensures r.Valid() && r.Ordinal() == d.Ordinal() + 1
  {
    if d.day < DaysIn(d.year, d.month) then Date(d.year, d.month, d.day + 1)
    else
      var (y, m) := NextMonth(d.year, d.month);
      Date(y, m, 1)
  }

  function AddDays(d: Date, n: nat): (r: Date)
    requires d.Valid()
    ensures r.Valid() && r.Ordinal() == d.Ordinal() + n
    decreases n
  {
    if n == 0 then d else AddDays(NextDay(d), n - 1)
  }

  function DateOf(ordinal: nat): (d: Date)
    requires ordinal >= 1
    ensures d.Valid() && d.Ordinal() == ordinal
  {
    AddDays(Date(1, 1, 1), ordinal - 1)
  }

  lemma Split(value: int)
    requires value >= DAY
    ensures value / DAY >= 1 && 0 <= value - value / DAY * DAY < DAY
  {
  }

  function MomentOf(value: int): (m: Moment)
    requires value >= DAY
    ensures m.Valid() && m.Value() == value
  {
    Split(value);
    var day := value / DAY;
    Moment(DateOf(day), value - day * DAY)
  }

  // ---- schedules

  datatype Cadence = Daily | Weekly | Monthly

  datatype Rule = Rule(cadence: Cadence, hour: int, weekday: int, dayOfMonth: int) {
    /** What `next_run` accepts; the weekday and the day of the month matter only where used. */
    predicate Valid() {
      && 0 <= hour <= 23
      && (cadence.Weekly? ==> 0 <= weekday <= 6)
      && (cadence.Monthly? ==> 1 <= dayOfMonth <= 31)
    }

    /** The times the schedule means. "The 31st" of a shorter month is its last day. */
    predicate Occurs(x: Moment)
      requires x.Valid() && Valid()
    {
      && x.time == hour * HOUR
      && (cadence.Weekly? ==> x.date.Weekday() == weekday)
      && (cadence.Monthly? ==>
            || x.date.day == dayOfMonth
            || (x.date.day < dayOfMonth && x.date.day == DaysIn(x.date.year, x.date.month)))
    }
  }

  function Clamped(y: int, m: int, day: int): int {
    if day <= DaysIn(y, m) then day else DaysIn(y, m)
  }

  datatype Result = Ok(moment: Moment) | InvalidSchedule

  function MonthlyIn(y: nat, m: nat, hour: int, day: int): Moment
    requires 1 <= day <= 31
  {
    Moment(Date(y, m, Clamped(y, m, day)), hour * HOUR)
  }

  /** This month's occurrence if it is still to come, otherwise next month's. */
  function MonthlyNext(after: Moment, hour: int, day: int): Moment
    requires after.Valid() && 0 <= hour <= 23 && 1 <= day <= 31
  {
    var current := MonthlyIn(after.date.year, after.date.month, hour, day);
    if current.Value() > after.Value() then current
    else
      var (y, m) := NextMonth(after.date.year, after.date.month);
      MonthlyIn(y, m, hour, day)
  }

  /** The right weekday from today on, or a week later if that time is past. */
  function WeeklyFrom(after: Moment, time: int, ahead: nat): Moment
    requires after.Valid() && 0 <= time < DAY
  {
    var candidate := Moment(AddDays(after.date, ahead), time);
    if candidate.Value() <= after.Value() then Moment(AddDays(candidate.date, 7), time) else candidate
  }

  /** `next_run` on the wall clock. */
  function NextRun(rule: Rule, after: Moment): (r: Result)
    requires after.Valid()
    ensures r.Ok? <==> rule.Valid()
  {
    if !rule.Valid() then InvalidSchedule
    else
      var today := Moment(after.date, rule.hour * HOUR);
      match rule.cadence
      case Daily => Ok(if today.time <= after.time then Moment(AddDays(after.date, 1), today.time) else today)
      case Weekly =>
        Ok(WeeklyFrom(after, today.time, (rule.weekday - today.date.Weekday()) % 7))
      case Monthly => Ok(MonthlyNext(after, rule.hour, rule.dayOfMonth))
  }

  /** The two-pass loop over this month and the next: it always finds an occurrence. */
  method MonthlyLoop(after: Moment, hour: int, day: int) returns (r: Result)
    requires after.Valid() && 0 <= hour <= 23 && 1 <= day <= 31
    ensures r == Ok(MonthlyNext(after, hour, day))
  {
    var y, m := after.date.year, after.date.month;
    ghost var (ny, nm) := NextMonth(y, m);
    for pass := 0 to 2
      invariant pass == 0 ==> y == after.date.year && m == after.date.month
      invariant pass >= 1 ==> MonthlyIn(after.date.year, after.date.month, hour, day).Value() <= after.Value()
      invariant pass == 1 ==> y == ny && m == nm
      invariant pass == 2 ==> MonthlyIn(ny, nm, hour, day).Value() <= after.Value()
    {
      var last := DaysIn(y, m);
      var candidate := Moment(Date(y, m, if day < last then day else last), hour * HOUR);
      assert candidate == MonthlyIn(y, m, hour, day);
      if candidate.Value() > after.Value() {
        return Ok(candidate);
      }
      var next := NextMonth(y, m);
      y, m := next.0, next.1;
    }
    LaterMonth(after.date, MonthlyIn(ny, nm, hour, day).date);
    assert false;
    r := InvalidSchedule;
  }

  // ---- the answer is the next occurrence

  /** Valid, an occurrence, strictly later, and nothing in between. */
  ghost predicate IsNext(rule: Rule, after: Moment, x: Moment)
    requires after.Valid() && rule.Valid()
  {
    && x.Valid() && rule.Occurs(x) && x.Value() > after.Value()
    && forall y: Moment :: y.Valid() && rule.Occurs(y) && y.Value() > after.Value() ==> x.Value() <= y.Value()
  }

  lemma DailyIsNext(rule: Rule, after: Moment)
    requires rule.Valid() && rule.cadence.Daily? && after.Valid()
    ensures IsNext(rule, after, NextRun(rule, after).moment)
  {
    var hour := rule.hour * HOUR;
    var x := NextRun(rule, after).moment;
    var late := if hour <= after.time then 1 else 0;
    assert x.Valid() && x.time == hour && x.date.Ordinal() == after.date.Ordinal() + late;
    InSequence(after, x);
    forall y: Moment | y.Valid() && rule.Occurs(y) && y.Value() > after.Value() ensures x.Value() <= y.Value() {
      DailyLeast(after, hour, late, x, y);
    }
  }

  lemma DailyLeast(after: Moment, hour: int, late: nat, x: Moment, y: Moment)
    requires after.Valid() && x.Valid() && y.Valid() && x.time == hour == y.time
    requires late == (if hour <= after.time then 1 else 0) && x.date.Ordinal() == after.date.Ordinal() + late
    requires y.Value() > after.Value()
    ensures x.Value() <= y.Value()
  {
    NotEarlierDay(after.date.Ordinal(), after.time, hour, y.date.Ordinal());
    InOrder(x, y);
  }

  lemma NotEarlierDay(today: int, now: int, hour: int, day: int)
    requires 0 <= now < DAY && 0 <= hour < DAY && day * DAY + hour > today * DAY + now
    ensures day >= today + if hour <= now then 1 else 0
  {
  }

  /** The next day of a weekday and the one a week later, counting in days. */
  lemma OnWeekday(today: int, weekday: int, day: int)
    requires 0 <= weekday <= 6
    requires var ahead := (weekday - (today + 6) % 7) % 7; day == today + ahead || day == today + ahead + 7
    ensures (day + 6) % 7 == weekday
  {
  }

  /** Days of one weekday are whole weeks apart. */
  lemma SameWeekday(today: int, day: int, weekday: int)
    requires 0 <= weekday <= 6 && (day + 6) % 7 == weekday && day >= today
    ensures var ahead := (weekday - (today + 6) % 7) % 7;
            day == today + ahead || day >= today + ahead + 7
  {
  }

  /** The day a weekly schedule falls on, counted in days. */
  lemma WeeklyForm(after: Moment, time: int, ahead: nat)
    requires after.Valid() && 0 <= time < DAY && ahead <= 6
    ensures var x := WeeklyFrom(after, time, ahead);
            && x.Valid() && x.time == time
            && x.date.Ordinal() == after.date.Ordinal() + ahead + if ahead == 0 && time <= after.time then 7 else 0
  {
    var day := AddDays(after.date, ahead);
    assert day.Ordinal() == after.date.Ordinal() + ahead;
    LaterToday(after.date.Ordinal(), ahead, time, after.time);
  }

  lemma WeeklyOccurs(rule: Rule, after: Moment, ahead: nat)
    requires rule.Valid() && rule.cadence.Weekly? && after.Valid()
    requires ahead == (rule.weekday - after.date.Weekday()) % 7
    ensures var x := WeeklyFrom(after, rule.hour * HOUR, ahead);
            x.Valid() && rule.Occurs(x) && x.Value() > after.Value()
  {
    var x := WeeklyFrom(after, rule.hour * HOUR, ahead);
    WeeklyForm(after, rule.hour * HOUR, ahead);
    FallsOn(after.date, x.date, rule.weekday, ahead);
    InSequence(after, x);
  }

  lemma FallsOn(today: Date, day: Date, weekday: int, ahead: nat)
    requires today.Valid() && day.Valid() && 0 <= weekday <= 6 && ahead == (weekday - today.Weekday()) % 7
    requires day.Ordinal() == today.Ordinal() + ahead || day.Ordinal() == today.Ordinal() + ahead + 7
    ensures day.Weekday() == weekday
  {
    OnWeekday(today.Ordinal(), weekday, day.Ordinal());
  }

  lemma InSequence(x: Moment, y: Moment)
    requires x.Valid() && y.Valid()
    requires y.date.Ordinal() > x.date.Ordinal() || (y.date.Ordinal() == x.date.Ordinal() && y.time > x.time)
    ensures y.Value() > x.Value()
  {
    LaterToday(x.date.Ordinal(), y.date.Ordinal() - x.date.Ordinal(), y.time, x.time);
  }

  lemma LaterToday(today: int, ahead: int, hour: int, now: int)
    requires 0 <= ahead && 0 <= hour < DAY && 0 <= now < DAY
    ensures (today + ahead) * DAY + hour <= today * DAY + now <==> ahead == 0 && hour <= now
  {
  }

  lemma WeekLeast(today: int, now: int, hour: int, weekday: int, day: int)
    requires 0 <= now < DAY && 0 <= hour < DAY && 0 <= weekday <= 6
    requires (day + 6) % 7 == weekday && day * DAY + hour > today * DAY + now
    ensures var ahead := (weekday - (today + 6) % 7) % 7;
            today + ahead + (if ahead == 0 && hour <= now then 7 else 0) <= day
  {
    assert day >= today;
    SameWeekday(today, day, weekday);
  }

  lemma NotBefore(after: Moment, ahead: nat, hour: int, weekday: int, y: Moment)
    requires after.Valid() && y.Valid() && 0 <= hour < DAY && 0 <= weekday <= 6
    requires ahead == (weekday - after.date.Weekday()) % 7
    requires y.time == hour && y.date.Weekday() == weekday && y.Value() > after.Value()
    ensures after.date.Ordinal() + ahead + (if ahead == 0 && hour <= after.time then 7 else 0) <= y.date.Ordinal()
  {
    WeekLeast(after.date.Ordinal(), after.time, hour, weekday, y.date.Ordinal());
  }

  lemma WeeklyLeast(rule: Rule, after: Moment, ahead: nat, x: Moment, y: Moment)
    requires rule.Valid() && rule.cadence.Weekly? && after.Valid() && x.Valid() && y.Valid()
    requires ahead == (rule.weekday - after.date.Weekday()) % 7
    requires x.time == rule.hour * HOUR && x.date.Ordinal() == after.date.Ordinal() + ahead
               + if ahead == 0 && x.time <= after.time then 7 else 0
    requires rule.Occurs(y) && y.Value() > after.Value()
    ensures x.Value() <= y.Value()
  {
    NotBefore(after, ahead, rule.hour * HOUR, rule.weekday, y);
    InOrder(x, y);
  }

  lemma InOrder(x: Moment, y: Moment)
    requires x.Valid() && y.Valid() && x.time == y.time && x.date.Ordinal() <= y.date.Ordinal()
    ensures x.Value() <= y.Value()
  {
  }

  lemma WeeklyIsNext(rule: Rule, after: Moment)
    requires rule.Valid() && rule.cadence.Weekly? && after.Valid()
    ensures IsNext(rule, after, NextRun(rule, after).moment)
  {
    var ahead := (rule.weekday - after.date.Weekday()) % 7;
    var x := WeeklyFrom(after, rule.hour * HOUR, ahead);
    assert NextRun(rule, after).moment == x;
    WeeklyFromIsNext(rule, after, ahead, x);
  }

  lemma WeeklyFromIsNext(rule: Rule, after: Moment, ahead: nat, x: Moment)
    requires rule.Valid() && rule.cadence.Weekly? && after.Valid()
    requires ahead == (rule.weekday - after.date.Weekday()) % 7 && x == WeeklyFrom(after, rule.hour * HOUR, ahead)
    ensures IsNext(rule, after, x)
  {
    WeeklyOccurs(rule, after, ahead);
    WeeklyForm(after, rule.hour * HOUR, ahead);
    forall y: Moment | y.Valid() && rule.Occurs(y) && y.Value() > after.Value() ensures x.Value() <= y.Value() {
      WeeklyLeast(rule, after, ahead, x, y);
    }
  }

  lemma MonthlyOccurs(rule: Rule, after: Moment)
    requires rule.Valid() && rule.cadence.Monthly? && after.Valid()
    ensures var x := NextRun(rule, after).moment;
            && x.Valid() && rule.Occurs(x) && x.Value() > after.Value()
            && (|| MonthIndex(x.date.year, x.date.month) == MonthIndex(after.date.year, after.date.month)
                || (&& MonthIndex(x.date.year, x.date.month) == MonthIndex(after.date.year, after.date.month) + 1
                    && MonthlyIn(after.date.year, after.date.month, rule.hour, rule.dayOfMonth).Value()
                       <= after.Value()))
  {
    var (ny, nm) := NextMonth(after.date.year, after.date.month);
    LaterMonth(after.date, MonthlyIn(ny, nm, rule.hour, rule.dayOfMonth).date);
  }

  /** An occurrence of a monthly rule is determined by its month. */
  lemma OncePerMonth(rule: Rule, x: Moment, y: nat, m: nat)
    requires rule.Valid() && rule.cadence.Monthly? && x.Valid() && rule.Occurs(x)
    requires y >= 1 && 1 <= m <= 12 && MonthIndex(x.date.year, x.date.month) == MonthIndex(y, m)
    ensures x == MonthlyIn(y, m, rule.hour, rule.dayOfMonth)
  {
  }

  lemma MonthlyLeast(rule: Rule, after: Moment, y: Moment)
    requires rule.Valid() && rule.cadence.Monthly? && after.Valid()
    requires y.Valid() && rule.Occurs(y) && y.Value() > after.Value()
    ensures NextRun(rule, after).moment.Valid() && NextRun(rule, after).moment.Value() <= y.Value()
  {
    MonthlyOccurs(rule, after);
    var x := NextRun(rule, after).moment;
    var i, j := MonthIndex(x.date.year, x.date.month), MonthIndex(y.date.year, y.date.month);
    var k := MonthIndex(after.date.year, after.date.month);
    if i < j {
      LaterMonth(x.date, y.date);
    } else if i == j {
      OncePerMonth(rule, y, x.date.year, x.date.month);
      OncePerMonth(rule, x, x.date.year, x.date.month);
    } else {
      NotEarlier(rule, after, y);
    }
  }

  /** Nothing occurs after `after` in an earlier month, nor in the same one once its day is past. */
  lemma NotEarlier(rule: Rule, after: Moment, y: Moment)
    requires rule.Valid() && rule.cadence.Monthly? && after.Valid()
    requires y.Valid() && rule.Occurs(y) && y.Value() > after.Value()
    ensures MonthIndex(after.date.year, after.date.month) <= MonthIndex(y.date.year, y.date.month)
    ensures MonthIndex(after.date.year, after.date.month) == MonthIndex(y.date.year, y.date.month) ==>
              y == MonthlyIn(after.date.year, after.date.month, rule.hour, rule.dayOfMonth)
  {
    if MonthIndex(after.date.year, after.date.month) == MonthIndex(y.date.year, y.date.month) {
      OncePerMonth(rule, y, after.date.year, after.date.month);
    } else if MonthIndex(after.date.year, after.date.month) > MonthIndex(y.date.year, y.date.month) {
      LaterMonth(y.date, after.date);
    }
  }

  lemma MonthlyIsNext(rule: Rule, after: Moment)
    requires rule.Valid() && rule.cadence.Monthly? && after.Valid()
    ensures IsNext(rule, after, NextRun(rule, after).moment)
  {
    MonthlyOccurs(rule, after);
    forall y: Moment | y.Valid() && rule.Occurs(y) && y.Value() > after.Value()
      ensures NextRun(rule, after).moment.Value() <= y.Value()
    {
      MonthlyLeast(rule, after, y);
    }
  }

  /** There is an answer exactly for a valid schedule, and for every cadence it is the least
      occurrence strictly after the given time. */
  lemma NextRunIsNext(rule: Rule, after: Moment)
    requires after.Valid()
    ensures NextRun(rule, after).Ok? <==> rule.Valid()
    ensures rule.Valid() ==> IsNext(rule, after, NextRun(rule, after).moment)
  {
    if !rule.Valid() {
      return;
    }
    match rule.cadence
    case Daily => DailyIsNext(rule, after);
    case Weekly => WeeklyIsNext(rule, after);
    case Monthly => MonthlyIsNext(rule, after);
  }

  /** From one occurrence to the next: a day, a week, or to the following month, 28 to 31 days on. */
  lemma StepLength(rule: Rule, x: Moment)
    requires rule.Valid() && x.Valid() && rule.Occurs(x)
    ensures var y := NextRun(rule, x).moment;
            && y.Valid()
            && match rule.cadence
               case Daily => y.Value() == x.Value() + DAY
               case Weekly => y.Value() == x.Value() + 7 * DAY
               case Monthly =>
                 && MonthIndex(y.date.year, y.date.month) == MonthIndex(x.date.year, x.date.month) + 1
                 && x.Value() + 28 * DAY <= y.Value() <= x.Value() + 31 * DAY
  {
    NextRunIsNext(rule, x);
    var y := NextRun(rule, x).moment;
    match rule.cadence
    case Daily =>
    case Weekly => WeeklyForm(x, x.time, 0);
    case Monthly =>
      var (ny, nm) := NextMonth(x.date.year, x.date.month);
      assert DaysBefore(ny, nm) == DaysBefore(x.date.year, x.date.month) + DaysIn(x.date.year, x.date.month);
  }

  // ---- instants

  /** The schedule means this instant: it does so on the wall clock of its zone. */
  predicate OccursAt(rule: Rule, offset: int, t: int)
    requires rule.Valid()
  {
    t + offset >= DAY && rule.Occurs(MomentOf(t + offset))
  }

  /** The first instant after `now` that the schedule means. */
  ghost predicate Upcoming(rule: Rule, offset: int, now: int, at: int)
    requires rule.Valid()
  {
    && at > now && OccursAt(rule, offset, at)
    && forall t :: now < t < at ==> !OccursAt(rule, offset, t)
  }

  /** The next run as an instant, for a zone a fixed `offset` ahead of UTC. */
  function NextUtc(rule: Rule, offset: int, now: int): (r: int)
    requires rule.Valid() && now + offset >= DAY
  {
    NextRunIsNext(rule, MomentOf(now + offset));
    NextRun(rule, MomentOf(now + offset)).moment.Value() - offset
  }

  /** The answer is an instant the schedule means and strictly later, and no other such instant
      comes before it. */
  lemma NextUtcIsNext(rule: Rule, offset: int, now: int)
    requires rule.Valid() && now + offset >= DAY
    ensures Upcoming(rule, offset, now, NextUtc(rule, offset, now))
  {
    NextUtcIsLater(rule, offset, now);
    NextUtcOccurs(rule, offset, now);
    forall t | now < t < NextUtc(rule, offset, now) ensures !OccursAt(rule, offset, t) {
      if OccursAt(rule, offset, t) {
        NextUtcIsLeast(rule, offset, now, t);
      }
    }
  }

  lemma NextUtcIsLater(rule: Rule, offset: int, now: int)
    requires rule.Valid() && now + offset >= DAY
    ensures NextUtc(rule, offset, now) > now
  {
    NextRunIsNext(rule, MomentOf(now + offset));
  }

  lemma NextUtcOccurs(rule: Rule, offset: int, now: int)
    requires rule.Valid() && now + offset >= DAY
    ensures OccursAt(rule, offset, NextUtc(rule, offset, now))
  {
    var after := MomentOf(now + offset);
    NextRunIsNext(rule, after);
    MeansItsInstant(rule, offset, NextRun(rule, after).moment);
  }

  lemma MeansItsInstant(rule: Rule, offset: int, x: Moment)
    requires rule.Valid() && x.Valid() && rule.Occurs(x) && x.Value() >= DAY
    ensures OccursAt(rule, offset, x.Value() - offset)
  {
    OnlyMoment(x);
  }

  lemma NextUtcIsLeast(rule: Rule, offset: int, now: int, t: int)
    requires rule.Valid() && now + offset >= DAY && t > now && OccursAt(rule, offset, t)
    ensures NextUtc(rule, offset, now) <= t
  {
    NextRunIsNext(rule, MomentOf(now + offset));
    assert MomentOf(t + offset).Value() > MomentOf(now + offset).Value();
  }

  /** A moment is told by its value. */
  lemma OnlyMoment(x: Moment)
    requires x.Valid() && x.Value() >= DAY
    ensures MomentOf(x.Value()) == x
  {
    var y := MomentOf(x.Value());
    var a, b := x.date.Ordinal(), y.date.Ordinal();
    LaterToday(a, if b >= a then b - a else 0, y.time, x.time);
    LaterToday(b, if a >= b then a - b else 0, x.time, y.time);
    OnlyDate(x.date, y.date);
  }

  lemma OnlyDate(a: Date, b: Date)
    requires a.Valid() && b.Valid() && a.Ordinal() == b.Ordinal()
    ensures a == b
  {
    if MonthIndex(a.year, a.month) < MonthIndex(b.year, b.month) {
      LaterMonth(a, b);
    } else if MonthIndex(b.year, b.month) < MonthIndex(a.year, a.month) {
      LaterMonth(b, a);
    }
  }
}
