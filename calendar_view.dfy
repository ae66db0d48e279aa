/** src/components/CalendarView.tsx: the month grid, the phase shown on each day, the
    "banked" days of completed subjects and the status modal. `today` is the midnight of
    the current day, `new Date().setHours(0,0,0,0)`, as a time value. */
module CalendarView {
  import opened Common
  import opened Calendar
  import opened Model
  import opened Storage
  import opened SyllabusTracker

  // ---------------------------------------------------------------------------
  // The month grid
  // ---------------------------------------------------------------------------

  /** `getDaysInMonth`: `new Date(year, month + 1, 0).getDate()`, day 0 of the next month. */
  function DaysInMonth(year: int, month: int): JsNumber {
    GetDate(NewDate(Num(year), Num(month + 1), Num(0)))
  }

  /** `getFirstDayOfMonth`: `new Date(year, month, 1).getDay()`. */
  function FirstDayOfMonth(year: int, month: int): JsNumber {
    GetDay(NewDate(Num(year), Num(month), Num(1)))
  }

  /** The day before the first of month `m + 1` is the last day of month `m`. */
  lemma LastDayBeforeNext(y: int, m: int)
    requires 0 <= m < 12
    ensures MakeDay(y, m + 1, 0) == DayNumber(Civil(y, m, MonthLength(y, m)))
  {
    MonthStep(y, m);
    if m == 11 {
      YearStep(y);
      MonthStep(y, 11);
    }
  }

  /** The length of a (0-based) month is its Gregorian length, so February has 29 days
      exactly in leap years; the year is the one `new Date` reads, with 0..99 standing
      for 1900..1999. */
  lemma DaysInMonthIsLength(year: int, month: int)
    requires 0 <= month < 12 && YearInRange(FullYear(year))
    ensures DaysInMonth(year, month) == Num(MonthLength(FullYear(year), month))
    ensures month == 1 ==> (DaysInMonth(year, month) == Num(29) <==> IsLeap(FullYear(year)))
  {
    var c := Civil(FullYear(year), month, MonthLength(FullYear(year), month));
    LastDayBeforeNext(FullYear(year), month);
    DayInRange(c);
    var n := DayNumber(c);
    var d := NewDate(Num(year), Num(month + 1), Num(0));
    assert d == DateAt(n * MsPerDay);
    DayOfTime(n, 0);
    assert DayOf(d.time) == n;
    CivilOfDayNumber(c);
    assert GetDate(d) == Num(c.day);
  }

  /** The weekday of the first of the month, 0 for Sunday. */
  lemma FirstDayIsWeekday(year: int, month: int)
    requires 0 <= month < 12 && YearInRange(FullYear(year))
    ensures FirstDayOfMonth(year, month) == Num(Weekday(DayNumber(Civil(FullYear(year), month, 1))))
  {
    var c := Civil(FullYear(year), month, 1);
    DayInRange(c);
    DayOfTime(DayNumber(c), 0);
  }

  /** `renderDays`' cells: `firstDay` blanks, then the days 1..`daysInMonth`. */
  function Grid(firstDay: nat, daysInMonth: nat): (g: seq<Option<nat>>)
    ensures |g| == firstDay + daysInMonth
  {
    seq(firstDay, _ => None) + seq(daysInMonth, (i: int) => Some(i + 1))
  }

  /** The grid starts with exactly `firstDay` blanks; day `k` sits in cell
      `firstDay + k - 1`, so the days appear once each, in increasing order. */
  lemma GridLayout(firstDay: nat, daysInMonth: nat)
    ensures forall i :: 0 <= i < firstDay ==> Grid(firstDay, daysInMonth)[i].None?
    ensures forall k :: 1 <= k <= daysInMonth ==> Grid(firstDay, daysInMonth)[firstDay + k - 1] == Some(k)
    ensures forall i, j :: firstDay <= i < j < firstDay + daysInMonth ==>
      Grid(firstDay, daysInMonth)[i].Some? && Grid(firstDay, daysInMonth)[i].value < Grid(firstDay, daysInMonth)[j].value
  {
    var g := Grid(firstDay, daysInMonth);
    assert forall i :: firstDay <= i < |g| ==> g[i] == Some(i - firstDay + 1);
  }

  // ---------------------------------------------------------------------------
  // Day information
  // ---------------------------------------------------------------------------

  datatype DayInfo = DayInfo(phase: Phase, isCompleted: bool, isBanked: bool, dateStr: string)

  /** The test of `schedule.find` for the rendered day `check`: a decided phase with
      both dates, whose start midnight and end of day are non-null and enclose `check`.
      An Invalid Date is non-null but every comparison with its NaN time is false, which
      is what the time values of `StartKey` and `EndTime` being None stand for. */
  function OnDay(check: Date): Phase -> bool {
    (p: Phase) =>
      if p.isUndecided || p.start == "" || p.end == "" then false
      else if ParseLocal(p.start).None? || GetEndOfDay(p.end).None? then false
      else check.DateAt? && StartKey(p).Some? && EndTime(p).Some? &&
           check.time >= StartKey(p).value && check.time <= EndTime(p).value
  }

  /** `${year}-${MM}-${DD}` of the rendered day. */
  function DateText(year: int, month: nat, day: nat): string {
    IntString(year) + "-" + Padded(month + 1, 2) + "-" + Padded(day, 2)
  }

  /** `getDayInfo(day)` for the month on screen. */
  function GetDayInfo(schedule: seq<Phase>, status: Status, year: int, month: nat, day: nat, today: int): (r: Option<DayInfo>)
    ensures r.Some? ==> r.value.isCompleted == IsCompleted(status, r.value.phase.id)
    ensures r.Some? ==> r.value.dateStr == DateText(year, month, day)
    ensures r.Some? ==>
      (r.value.isBanked <==>
        (r.value.isCompleted && NewDate(Num(year), Num(month), Num(day)).DateAt? &&
         NewDate(Num(year), Num(month), Num(day)).time > today))
  {
    var check := NewDate(Num(year), Num(month), Num(day));
    var found := Find(schedule, OnDay(check));
    if found.None? then None
    else
      var phase := found.value;
      var isCompleted := IsCompleted(status, phase.id);
      var isFuture := check.DateAt? && check.time > today;
      Some(DayInfo(phase, isCompleted, isCompleted && isFuture, DateText(year, month, day)))
  }

  /** The phase of a day is the one the resolver reports as active at that day's
      midnight: the first decided phase in schedule order whose dates cover it. */
  lemma DayInfoIsActive(schedule: seq<Phase>, status: Status, year: int, month: nat, day: nat, today: int)
    requires NewDate(Num(year), Num(month), Num(day)).DateAt?
    ensures var t := NewDate(Num(year), Num(month), Num(day)).time;
      (GetDayInfo(schedule, status, year, month, day, today).Some? <==> Active(schedule, t).Some?) &&
      (Active(schedule, t).Some? ==> GetDayInfo(schedule, status, year, month, day, today).value.phase == Active(schedule, t).value)
  {
    var check := NewDate(Num(year), Num(month), Num(day));
    var t := check.time;
    SameTest(check);
    FindInFilter(schedule, ValidTest(), CoversAt(t), OnDay(check));
  }

  /** The calendar's test is the resolver's: a valid phase covering the instant. */
  lemma SameTest(check: Date)
    requires check.DateAt?
    ensures forall p :: OnDay(check)(p) == (ValidTest()(p) && CoversAt(check.time)(p))
  {
    forall p: Phase ensures OnDay(check)(p) == (ValidTest()(p) && CoversAt(check.time)(p)) {
      if StartKey(p).Some? {
        assert ParseLocal(p.start).Some?;
      }
      if EndTime(p).Some? {
        assert GetEndOfDay(p.end).Some?;
      }
    }
  }

  /** An instant `a` at a midnight and an instant `b` at the last millisecond of a day
      enclose the midnight of day `n` exactly when day `n` lies between their days. */
  lemma MidnightBetween(a: int, b: int, n: int)
    requires a % MsPerDay == 0 && b % MsPerDay == MsPerDay - 1
    ensures a <= n * MsPerDay <= b <==> DayOf(a) <= n <= DayOf(b)
  {
    DayOfTime(DayOf(a), 0);
    DayOfTime(DayOf(b), MsPerDay - 1);
    DayOfTime(n, 0);
  }

  /** A start date is a midnight. */
  lemma StartIsMidnight(p: Phase)
    requires StartKey(p).Some?
    ensures StartKey(p).value % MsPerDay == 0
  {
    var d := ParseLocal(p.start);
    assert d.Some? && d.value.DateAt? && d.value.time == StartKey(p).value;
  }

  /** An end date is the last millisecond of its day. */
  lemma EndIsLastMs(p: Phase)
    requires EndTime(p).Some?
    ensures EndTime(p).value % MsPerDay == MsPerDay - 1
  {
    var d := ParseLocal(p.end);
    var e := GetEndOfDay(p.end);
    assert e.Some? && e.value.DateAt? && e.value.time == EndTime(p).value;
    assert d.Some? && e.value == SetEndOfDay(d.value);
    assert d.value.DateAt?;
    EndOfSameDay(d.value.time);
  }

  /** Covering the midnight of day `n` means that `n` lies between the start day and the
      end day, as calendar dates. */
  lemma CoversAsDays(p: Phase, n: int)
    ensures Covers(p, n * MsPerDay) <==>
      StartKey(p).Some? && EndTime(p).Some? && DayOf(StartKey(p).value) <= n <= DayOf(EndTime(p).value)
  {
    if StartKey(p).Some? && EndTime(p).Some? {
      StartIsMidnight(p);
      EndIsLastMs(p);
      MidnightBetween(StartKey(p).value, EndTime(p).value, n);
    }
  }

  // ---------------------------------------------------------------------------
  // The modal's date
  // ---------------------------------------------------------------------------

  /** The number of a destructured part, NaN (from undefined) when it is missing. */
  function Part(parts: seq<string>, i: nat): JsNumber {
    if i < |parts| then ToNumber(parts[i]) else NaN
  }

  /** `dateStr.split('-').map(Number)` read as `new Date(y, m - 1, d).getTime()`. */
  function DayTimestamp(dateStr: string): JsNumber {
    var parts := Split(dateStr, '-');
    match NewDate(Part(parts, 0), Sub(Part(parts, 1), 1), Part(parts, 2))
    case InvalidDate => NaN
    case DateAt(t) => Num(t)
  }

  /** The date string of a rendered day reads back as that day's midnight, so the modal
      computes "banked" against the same instant as the grid. */
  lemma DayTimestampOfDateText(year: int, month: nat, day: nat)
    requires 100 <= year && YearInRange(year) && ValidCivil(Civil(year, month, day))
    ensures DayTimestamp(DateText(year, month, day)) == Num(DayNumber(Civil(year, month, day)) * MsPerDay)
    ensures NewDate(Num(year), Num(month), Num(day)) == DateAt(DayNumber(Civil(year, month, day)) * MsPerDay)
  {
    var c := Civil(year, month, day);
    DateTextParts(year, month, day);
    var parts := Split(DateText(year, month, day), '-');
    assert Sub(Part(parts, 1), 1) == Num(month);
    NewDateOfCivil(c);
    var nd := NewDate(Num(year), Num(month), Num(day));
    assert nd == DateAt(DayNumber(c) * MsPerDay);
    assert DayTimestamp(DateText(year, month, day)) == Num(nd.time);
  }

  /** The three parts of a rendered day's date string are its year, its month counted
      from 1 and its day. */
  lemma DateTextParts(year: int, month: nat, day: nat)
    requires year >= 0
    ensures var parts := Split(DateText(year, month, day), '-');
      Part(parts, 0) == Num(year) && Part(parts, 1) == Num(month + 1) && Part(parts, 2) == Num(day)
  {
    var y, m, d := Decimal(year), Padded(month + 1, 2), Padded(day, 2);
    DecimalValue(year);
    var parts := Split(DateText(year, month, day), '-');
    assert parts == [y, m, d] by {
      assert DateText(year, month, day) == y + "-" + m + "-" + d;
      SplitDate(y, m, d);
    }
    DigitParts(parts, y, m, d);
  }

  /** The numbers of three digit strings. */
  lemma DigitParts(parts: seq<string>, y: string, m: string, d: string)
    requires parts == [y, m, d] && AllDigits(y) && AllDigits(m) && AllDigits(d)
    ensures Part(parts, 0) == Num(DigitsValue(y)) && Part(parts, 1) == Num(DigitsValue(m))
    ensures Part(parts, 2) == Num(DigitsValue(d))
  {
  }

  // ---------------------------------------------------------------------------
  // The component
  // ---------------------------------------------------------------------------

  datatype Selected = Selected(dateStr: string, phase: Phase, record: StatusRecord, isBanked: bool)

  class Page {
    var currentDate: Date
    var status: Status
    var schedule: seq<Phase>
    var selectedDay: Option<Selected>
    const store: Store

    /** The initial state and the mount effect: the current month, and the status and
        schedule read from the store. */
    constructor (store: Store, nowMs: int)
      ensures this.store == store && currentDate == TimeClip(nowMs) && selectedDay == None
      ensures status == GetSyllabusStatus(store.data) && schedule == GetSchedule(store.data)
    {
      this.store := store;
      currentDate := TimeClip(nowMs);
      status := GetSyllabusStatus(store.data);
      schedule := GetSchedule(store.data);
      selectedDay := None;
    }

    /** `prevMonth`: the first of the month before. */
    method PrevMonth()
      modifies this
      ensures currentDate == NewDate(GetFullYear(old(currentDate)), Sub(GetMonth(old(currentDate)), 1), Num(1))
      ensures status == old(status) && schedule == old(schedule) && selectedDay == old(selectedDay)
    {
      currentDate := NewDate(GetFullYear(currentDate), Sub(GetMonth(currentDate), 1), Num(1));
    }

    /** `nextMonth`: the first of the month after. */
    method NextMonth()
      modifies this
      ensures currentDate == NewDate(GetFullYear(old(currentDate)), Sub(GetMonth(old(currentDate)), -1), Num(1))
      ensures status == old(status) && schedule == old(schedule) && selectedDay == old(selectedDay)
    {
      currentDate := NewDate(GetFullYear(currentDate), Sub(GetMonth(currentDate), -1), Num(1));
    }

    /** `goToToday`: the month on screen becomes the current one. */
    method GoToToday(nowMs: int)
      modifies this
      ensures currentDate == TimeClip(nowMs)
      ensures status == old(status) && schedule == old(schedule) && selectedDay == old(selectedDay)
    {
      currentDate := TimeClip(nowMs);
    }

    /** `handleDayClick(day)`: a day with a phase opens the modal with that phase's
        record, all false when there is none. An Invalid current date has NaN for year
        and month, so no phase is found and nothing happens. */
    method HandleDayClick(day: nat, today: int)
      modifies this
      ensures currentDate.InvalidDate? ==> selectedDay == old(selectedDay)
      ensures currentDate.DateAt? ==>
        var c := CivilOf(DayOf(currentDate.time));
        var info := GetDayInfo(schedule, status, c.year, c.month, day, today);
        selectedDay == if info.None? then old(selectedDay)
                       else Some(Selected(info.value.dateStr, info.value.phase, RecordOf(status, info.value.phase.id), info.value.isBanked))
      ensures currentDate == old(currentDate) && status == old(status) && schedule == old(schedule)
    {
      if currentDate.DateAt? {
        var c := CivilOf(DayOf(currentDate.time));
        Select(GetDayInfo(schedule, status, c.year, c.month, day, today));
      }
    }

    /** Opens the modal on a found day, with the phase's record. */
    method Select(info: Option<DayInfo>)
      modifies this
      ensures selectedDay == if info.None? then old(selectedDay)
                             else Some(Selected(info.value.dateStr, info.value.phase, RecordOf(status, info.value.phase.id), info.value.isBanked))
      ensures currentDate == old(currentDate) && status == old(status) && schedule == old(schedule)
    {
      if info.Some? {
        var s := RecordOf(status, info.value.phase.id);
        selectedDay := Some(Selected(info.value.dateStr, info.value.phase, s, info.value.isBanked));
      }
    }

    /** `toggleStatusFromModal(field)`: flips one flag of the selected phase (from an
        all-false record when it has none), saves the status, and recomputes "banked"
        from the new completed flag and the modal's date. */
    method ToggleStatusFromModal(f: Flag, today: int, stamp: string)
      requires store.Valid()
      modifies this, store
      ensures store.Valid()
      ensures old(selectedDay).None? ==> status == old(status) && selectedDay == None && store.data == old(store.data)
      ensures old(selectedDay).Some? ==>
        var sel := old(selectedDay).value;
        var rec := Toggled(old(status), sel.phase.id, f)[sel.phase.id];
        var ts := DayTimestamp(sel.dateStr);
        status == Toggled(old(status), sel.phase.id, f) &&
        store.data == WithBackup(old(store.data)[SyllabusKey := SyllabusValue(status)], store.loadedAt, stamp) &&
        selectedDay == Some(sel.(record := rec, isBanked := rec.completed && ts.Num? && ts.v > today))
      ensures currentDate == old(currentDate) && schedule == old(schedule)
    {
      if selectedDay.Some? {
        var sel := selectedDay.value;
        var phaseId := sel.phase.id;
        var currentStatus := RecordOf(status, phaseId);
        var newStatusVal := With(currentStatus, f, !Get(currentStatus, f));
        status := status[phaseId := newStatusVal];
        store.SaveSyllabusStatus(status, stamp);
        Reselect(sel, newStatusVal, DayTimestamp(sel.dateStr), today);
      }
    }

    /** The modal's new state after a toggle, with `dayTimestamp` its date's time value. */
    method Reselect(sel: Selected, newStatusVal: StatusRecord, dayTimestamp: JsNumber, today: int)
      modifies this
      ensures selectedDay == Some(sel.(record := newStatusVal, isBanked := newStatusVal.completed && dayTimestamp.Num? && dayTimestamp.v > today))
      ensures currentDate == old(currentDate) && schedule == old(schedule) && status == old(status)
    {
      var isBanked := newStatusVal.completed && dayTimestamp.Num? && dayTimestamp.v > today;
      selectedDay := Some(sel.(record := newStatusVal, isBanked := isBanked));
    }
  }

  /** Month 12 is January of the next year, month -1 December of the year before. */
  lemma MakeDayCarry(year: int, month: int, date: int)
    requires month == 12 || month == -1
    ensures month == 12 ==> MakeDay(year, month, date) == DaysBeforeYear(year + 1) + DaysBeforeMonth(year + 1, 0) + date - 1
    ensures month == -1 ==> MakeDay(year, month, date) == DaysBeforeYear(year - 1) + DaysBeforeMonth(year - 1, 11) + date - 1
  {
    if month == 12 {
      assert month / 12 == 1 && month % 12 == 0;
    } else {
      assert month / 12 == -1 && month % 12 == 11;
    }
  }

  /** Stepping a month forward from any day lands on the first of the next month, and
      from December on January of the next year. */
  lemma NextMonthIsFirst(t: int)
    requires var c := CivilOf(DayOf(t)); 100 <= c.year && YearInRange(c.year + 1)
    ensures var c := CivilOf(DayOf(t));
      var next := if c.month == 11 then Civil(c.year + 1, 0, 1) else Civil(c.year, c.month + 1, 1);
      NewDate(GetFullYear(DateAt(t)), Sub(GetMonth(DateAt(t)), -1), Num(1)) == DateAt(DayNumber(next) * MsPerDay)
  {
    var c := CivilOf(DayOf(t));
    assert GetFullYear(DateAt(t)) == Num(c.year) && Sub(GetMonth(DateAt(t)), -1) == Num(c.month + 1);
    FirstOfNext(c.year, c.month);
  }

  /** `new Date(year, month + 1, 1)` is the first of the month after `month`. */
  lemma FirstOfNext(year: int, month: int)
    requires 100 <= year && YearInRange(year + 1) && 0 <= month < 12
    ensures var next := if month == 11 then Civil(year + 1, 0, 1) else Civil(year, month + 1, 1);
      NewDate(Num(year), Num(month + 1), Num(1)) == DateAt(DayNumber(next) * MsPerDay)
  {
    var next := if month == 11 then Civil(year + 1, 0, 1) else Civil(year, month + 1, 1);
    var n := MakeDay(FullYear(year), month + 1, 1);
    if month == 11 {
      MakeDayCarry(year, 12, 1);
      MonthStep(year + 1, 0);
    } else {
      assert n == DaysBeforeYear(year) + DaysBeforeMonth(year, month + 1);
    }
    assert n == DayNumber(next);
    DayInRange(next);
    assert NewDate(Num(year), Num(month + 1), Num(1)) == TimeClip(n * MsPerDay);
  }

  /** Stepping a month back from any day lands on the first of the month before, and
      from January on December of the year before. */
  lemma PrevMonthIsFirst(t: int)
    requires var c := CivilOf(DayOf(t)); 101 <= c.year && YearInRange(c.year)
    ensures var c := CivilOf(DayOf(t));
      var prev := if c.month == 0 then Civil(c.year - 1, 11, 1) else Civil(c.year, c.month - 1, 1);
      NewDate(GetFullYear(DateAt(t)), Sub(GetMonth(DateAt(t)), 1), Num(1)) == DateAt(DayNumber(prev) * MsPerDay)
  {
    var c := CivilOf(DayOf(t));
    assert GetFullYear(DateAt(t)) == Num(c.year) && Sub(GetMonth(DateAt(t)), 1) == Num(c.month - 1);
    FirstOfPrev(c.year, c.month);
  }

  /** `new Date(year, month - 1, 1)` is the first of the month before `month`. */
  lemma FirstOfPrev(year: int, month: int)
    requires 101 <= year && YearInRange(year) && 0 <= month < 12
    ensures var prev := if month == 0 then Civil(year - 1, 11, 1) else Civil(year, month - 1, 1);
      NewDate(Num(year), Num(month - 1), Num(1)) == DateAt(DayNumber(prev) * MsPerDay)
  {
    var prev := if month == 0 then Civil(year - 1, 11, 1) else Civil(year, month - 1, 1);
    var n := MakeDay(FullYear(year), month - 1, 1);
    if month == 0 {
      MakeDayCarry(year, -1, 1);
    } else {
      assert n == DaysBeforeYear(year) + DaysBeforeMonth(year, month - 1);
    }
    assert n == DayNumber(prev);
    YearRange(year - 1);
    DayInRange(prev);
    assert NewDate(Num(year), Num(month - 1), Num(1)) == TimeClip(n * MsPerDay);
  }

  /** After a toggle, the modal's "banked" flag is the grid's rule applied to the new
      status: completed, and the day after today's midnight. */
  lemma ToggleBankedAgrees(schedule: seq<Phase>, status: Status, year: int, month: nat, day: nat, today: int, f: Flag)
    requires 100 <= year && YearInRange(year) && ValidCivil(Civil(year, month, day))
    requires GetDayInfo(schedule, status, year, month, day, today).Some?
    ensures var info := GetDayInfo(schedule, status, year, month, day, today).value;
      var after := Toggled(status, info.phase.id, f);
      var ts := DayTimestamp(info.dateStr);
      (after[info.phase.id].completed && ts.Num? && ts.v > today) ==
        GetDayInfo(schedule, after, year, month, day, today).value.isBanked
  {
    DayTimestampOfDateText(year, month, day);
    var info := GetDayInfo(schedule, status, year, month, day, today).value;
    var after := Toggled(status, info.phase.id, f);
    assert GetDayInfo(schedule, after, year, month, day, today).value.phase == info.phase;
  }
}
