/** When a schedule runs next. Instants are local: a day counted from 1 January 1970 (or a
    date of the calendar) and the microseconds since its midnight. */
module Schedule {
  const DAY_MICROS := 86_400_000_000

  type TimeOfDay = t: int | 0 <= t < DAY_MICROS

  datatype Instant = Instant(day: int, time: TimeOfDay)

  predicate Before(a: Instant, b: Instant) { a.day < b.day || (a.day == b.day && a.time < b.time) }

  /** `isoweekday`: 1 is Monday; day 0 was a Thursday. */
  function Weekday(day: int): int { (day + 3) % 7 + 1 }

  /** 1 January 1970 was a Thursday, and each day is followed by the next weekday. */
  lemma WeekdaysFollow(day: int)
    ensures 1 <= Weekday(day) <= 7 && Weekday(0) == 4
    ensures Weekday(day + 1) == if Weekday(day) == 7 then 1 else Weekday(day) + 1
  {}

  /** `HH:mm`. */
  function AtTime(hour: int, minute: int): TimeOfDay
    requires 0 <= hour < 24 && 0 <= minute < 60
    ensures AtTime(hour, minute) / 3_600_000_000 == hour && AtTime(hour, minute) / 60_000_000 % 60 == minute
    ensures AtTime(hour, minute) % 60_000_000 == 0
  {
    (hour * 60 + minute) * 60_000_000
  }

  /** `get_due_tasks` selects what is due at this instant. */
  predicate IsDue(nextRun: Instant, now: Instant) { !Before(now, nextRun) }

  // ----- daily -------------------------------------------------------------------------------------------------

  /** The daily branch of `_compute_next_run`: the earliest instant after now at that time, so that
      the schedule is not due again at once. */
  function NextDaily(now: Instant, time: TimeOfDay): (next: Instant)
    ensures next.time == time && Before(now, next) && !IsDue(next, now)
    ensures forall x: Instant | x.time == time && Before(now, x) :: !Before(x, next)
  {
    var candidate := Instant(now.day, time);
    if Before(now, candidate) then candidate else Instant(candidate.day + 1, time)
  }

  // ----- weekly ------------------------------------------------------------------------------------------------

  /** An instant the weekly schedule names. */
  predicate OnSchedule(x: Instant, days: seq<int>, time: TimeOfDay) { Weekday(x.day) in days && x.time == time }

  function Plus(now: Instant, micros: nat): (later: Instant)
    ensures (later.day - now.day) * DAY_MICROS + later.time - now.time == micros
  {
    Instant(now.day + (now.time + micros) / DAY_MICROS, (now.time + micros) % DAY_MICROS)
  }

  predicate NamesADay(days: seq<int>) { exists d :: d in days && 1 <= d <= 7 }

  /** Every weekday comes up within the next seven days. */
  lemma ComesWithinAWeek(now: Instant, days: seq<int>, time: TimeOfDay) returns (x: Instant)
    requires NamesADay(days)
    ensures OnSchedule(x, days, time) && Before(now, x) && x.day <= now.day + 7
  {
    var d :| d in days && 1 <= d <= 7;
    var delta := (d - Weekday(now.day) + 6) % 7 + 1;
    assert (now.day + delta + 3) % 7 == d - 1;
    x := Instant(now.day + delta, time);
  }

  /** The weekly branch of `_compute_next_run`. With at least one weekday the result is the earliest
      instant on the schedule after now; without any it comes again in a minute, and with
      none that exists in a week. */
  method NextWeekly(now: Instant, days: seq<int>, time: TimeOfDay) returns (next: Instant)
    ensures NamesADay(days) ==> OnSchedule(next, days, time) && Before(now, next) && !IsDue(next, now)
    ensures NamesADay(days) ==> forall x | OnSchedule(x, days, time) && Before(now, x) :: !Before(x, next)
    ensures days == [] ==> next == Plus(now, 60_000_000)
    ensures days != [] && !NamesADay(days) ==> next == Instant(now.day + 7, now.time)
  {
    if days == [] {
      return Plus(now, 60_000_000);
    }
    ghost var some := now;
    if NamesADay(days) {
      some := ComesWithinAWeek(now, days, time);
    }
    for delta := 0 to 8
      invariant forall x | OnSchedule(x, days, time) && Before(now, x) :: x.day >= now.day + delta
    {
      var checkDay := now.day + delta;
      if Weekday(checkDay) in days {
        var candidate := Instant(checkDay, time);
        if Before(now, candidate) || delta > 0 {
          assert OnSchedule(candidate, days, time) && NamesADay(days);
          return candidate;
        }
      }
    }
    return Instant(now.day + 7, now.time);
  }

  // ----- monthly -----------------------------------------------------------------------------------------------

  /** A date and time; days go up to 28 here, so that every month has them. */
  datatype Moment = Moment(year: int, month: int, dom: int, time: TimeOfDay)

  predicate Earlier(a: Moment, b: Moment) {
    || a.year < b.year
    || (a.year == b.year && (a.month < b.month || (a.month == b.month && (a.dom < b.dom || (a.dom == b.dom && a.time < b.time)))))
  }

  predicate IsMonth(month: int) { 1 <= month <= 12 }

  /** `max(1, min(28, dom or 1))`. */
  function ClampDom(dom: int): (d: int)
    ensures 1 <= d <= 28
    ensures 1 <= dom <= 28 ==> d == dom
    ensures dom < 1 ==> d == 1
    ensures dom > 28 ==> d == 28
  {
    if dom == 0 then 1 else if dom < 1 then 1 else if dom > 28 then 28 else dom
  }

  /** The monthly branch of `_compute_next_run`: a date that exists, and the earliest one after now
      on that day of the month at that time. */
  function NextMonthly(now: Moment, dom: int, time: TimeOfDay): (next: Moment)
    requires IsMonth(now.month)
    ensures IsMonth(next.month) && next.dom == ClampDom(dom) && next.time == time && Earlier(now, next)
    ensures forall x: Moment | IsMonth(x.month) && x.dom == ClampDom(dom) && x.time == time && Earlier(now, x) ::
      !Earlier(x, next)
  {
    var candidate := Moment(now.year, now.month, ClampDom(dom), time);
    if Earlier(now, candidate) then candidate
    else if now.month + 1 > 12 then candidate.(year := now.year + 1, month := 1)
    else candidate.(month := now.month + 1)
  }
}
