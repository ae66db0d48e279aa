/** src/components/Welcome.tsx: the landing page's phase card, a second copy of the phase
    resolver with a days-and-hours countdown and the completed flag of the active phase.
    The clock is the `now` parameter of each tick. */
module Welcome {
  import opened Common
  import opened Calendar
  import opened Model
  import opened Storage
  import opened SyllabusTracker

  /** The `{days, hours}` countdown. */
  datatype Clock = Clock(days: int, hours: int)

  /** `Math.floor(diff / day)` and `Math.floor((diff / hour) % 24)` of a positive
      difference: whole days, and the whole hours left over, which together make up
      the whole hours of `diff`. */
  function DaysHours(diff: int): (r: Clock)
    requires diff > 0
    ensures r.days == DayOf(diff) && 0 <= r.hours < 24
    ensures 24 * r.days + r.hours == diff / 3600000
  {
    DivDiv(diff, 3600000, 24);
    Clock(diff / MsPerDay, (diff / 3600000) % 24)
  }

  /** The countdown for the active phase towards `end`, its `getEndOfDay`: kept when
      that is null; a positive difference is decomposed; otherwise (no time left, or an
      Invalid Date) it shows zero. */
  function ActiveClock(old_: Option<Clock>, end: Option<Date>, now: int): (r: Option<Clock>)
    ensures end.None? ==> r == old_
    ensures end.Some? ==> r.Some?
    ensures end.Some? && end.value.DateAt? && end.value.time > now ==> r == Some(DaysHours(end.value.time - now))
    ensures end.Some? && !(end.value.DateAt? && end.value.time > now) ==> r == Some(Clock(0, 0))
  {
    match end
    case None => old_
    case Some(InvalidDate) => Some(Clock(0, 0))
    case Some(DateAt(t)) => if t - now > 0 then Some(DaysHours(t - now)) else Some(Clock(0, 0))
  }

  /** The countdown for an upcoming phase towards `start`, the time value of its
      `parseLocal` (None for null or an Invalid Date, whose difference is NaN):
      refreshed only for a start in the future, else kept. */
  function GapClock(old_: Option<Clock>, start: Option<int>, now: int): (r: Option<Clock>)
    ensures start.Some? && start.value > now ==> r == Some(DaysHours(start.value - now))
    ensures !(start.Some? && start.value > now) ==> r == old_
  {
    if start.Some? && start.value - now > 0 then Some(DaysHours(start.value - now)) else old_
  }

  class Page {
    const schedule: seq<Phase>
    const status: Status
    var userName: string
    var currentPhase: Option<Phase>
    var timeLeft: Option<Clock>
    var isCompleted: bool
    var isGap: bool

    /** The initial state and the mount effect, which reads the status, the schedule and
        the user's name once. */
    constructor (data: LocalStorage)
      ensures schedule == GetSchedule(data) && status == GetSyllabusStatus(data)
      ensures userName == GetUserProfile(data).name
      ensures currentPhase == None && timeLeft == None && !isCompleted && !isGap
    {
      schedule := GetSchedule(data);
      status := GetSyllabusStatus(data);
      userName := GetUserProfile(data).name;
      currentPhase := None;
      timeLeft := None;
      isCompleted := false;
      isGap := false;
    }

    /** `updateTime`: the active phase with its completed flag, else the next upcoming
        phase as a gap, else no phase; with no phase at all the gap flag, the completed
        flag and the countdown keep their previous values. */
    method UpdateTime(now: int)
      modifies this
      ensures userName == old(userName)
      ensures Active(schedule, now).Some? ==>
        currentPhase == Active(schedule, now) && !isGap &&
        isCompleted == IsCompleted(status, currentPhase.value.id) &&
        timeLeft == ActiveClock(old(timeLeft), GetEndOfDay(currentPhase.value.end), now)
      ensures Active(schedule, now).None? && Upcoming(schedule, now).Some? ==>
        currentPhase == Upcoming(schedule, now) && isGap && !isCompleted &&
        timeLeft == GapClock(old(timeLeft), StartKey(currentPhase.value), now)
      ensures Active(schedule, now).None? && Upcoming(schedule, now).None? ==>
        currentPhase == None && isGap == old(isGap) && isCompleted == old(isCompleted) && timeLeft == old(timeLeft)
    {
      var active := Active(schedule, now);
      if active.Some? {
        ShowActive(active.value, GetEndOfDay(active.value.end), now);
      } else {
        var upcoming := Upcoming(schedule, now);
        if upcoming.Some? {
          ShowGap(upcoming.value, StartKey(upcoming.value), now);
        } else {
          currentPhase := None;
        }
      }
    }

    /** The active-phase branch, with `end` the phase's `getEndOfDay`. */
    method ShowActive(p: Phase, end: Option<Date>, now: int)
      modifies this
      ensures currentPhase == Some(p) && !isGap && isCompleted == IsCompleted(status, p.id)
      ensures timeLeft == ActiveClock(old(timeLeft), end, now) && userName == old(userName)
    {
      currentPhase := Some(p);
      isGap := false;
      isCompleted := IsCompleted(status, p.id);
      if end.Some? {
        if end.value.DateAt? && end.value.time - now > 0 {
          timeLeft := Some(DaysHours(end.value.time - now));
        } else {
          timeLeft := Some(Clock(0, 0));
        }
      }
    }

    /** The gap branch, with `start` the time value of the phase's `parseLocal`. */
    method ShowGap(p: Phase, start: Option<int>, now: int)
      modifies this
      ensures currentPhase == Some(p) && isGap && !isCompleted
      ensures timeLeft == GapClock(old(timeLeft), start, now) && userName == old(userName)
    {
      currentPhase := Some(p);
      isGap := true;
      isCompleted := false;
      if start.Some? {
        var diff := start.value - now;
        if diff > 0 {
          timeLeft := Some(DaysHours(diff));
        }
      }
    }
  }

  /** A countdown shows zero days and zero hours exactly when less than an hour is left. */
  lemma ZeroClock(diff: int)
    requires diff > 0
    ensures DaysHours(diff) == Clock(0, 0) <==> diff < 3600000
  {
    var c := DaysHours(diff);
    if diff < 3600000 {
      DivUnique(diff, 3600000, 0, diff);
      assert 24 * c.days + c.hours == 0;
    } else {
      DivUnique(diff, 3600000, diff / 3600000, diff % 3600000);
      assert diff / 3600000 >= 1;
    }
  }

  /** A phase that covers `now` (as the active phase does) has a valid end that is not
      before `now`, so its countdown is always set; it shows zero days and zero hours
      exactly in the last hour of the phase. */
  lemma ActiveClockSet(p: Phase, now: int, old_: Option<Clock>)
    requires Covers(p, now)
    ensures ActiveClock(old_, GetEndOfDay(p.end), now).Some?
    ensures ActiveClock(old_, GetEndOfDay(p.end), now) == Some(Clock(0, 0)) <==> EndTime(p).value - now < 3600000
  {
    var e := GetEndOfDay(p.end);
    assert e.Some? && e.value.DateAt? && e.value.time == EndTime(p).value;
    var diff := e.value.time - now;
    if diff > 0 {
      ZeroClock(diff);
    }
  }

}
