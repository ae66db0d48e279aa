/** src/components/SyllabusTracker.tsx: the phase resolver, the countdowns, the smart
    planner, the completion and revision flags and the schedule editor. The clock is a
    parameter: `now`, `today` and `Date.now()` are integer milliseconds. */
module SyllabusTracker {
  import opened Common
  import opened Calendar
  import opened Model
  import opened Storage

  // ---------------------------------------------------------------------------
  // Phase resolution (shared with Welcome.tsx)
  // ---------------------------------------------------------------------------

  /** `p.start && p.end && !p.isUndecided`. */
  predicate IsValidPhase(p: Phase) {
    p.start != "" && p.end != "" && !p.isUndecided
  }

  function ValidTest(): Phase -> bool { (p: Phase) => IsValidPhase(p) }

  function ValidPhases(s: seq<Phase>): seq<Phase> {
    Filter(s, ValidTest())
  }

  /** The time value of `getEndOfDay(p.end)`, or None when it is null or an Invalid Date. */
  function EndTime(p: Phase): Option<int> {
    match GetEndOfDay(p.end)
    case Some(DateAt(t)) => Some(t)
    case _ => None
  }

  /** `s && e && now >= s && now <= e`: an Invalid Date is truthy but compares false. */
  predicate Covers(p: Phase, now: int) {
    StartKey(p).Some? && EndTime(p).Some? && StartKey(p).value <= now <= EndTime(p).value
  }

  /** `s && s > now`. */
  predicate StartsAfter(p: Phase, now: int) {
    StartKey(p).Some? && StartKey(p).value > now
  }

  function CoversAt(now: int): Phase -> bool { (p: Phase) => Covers(p, now) }
  function StartsAfterAt(now: int): Phase -> bool { (p: Phase) => StartsAfter(p, now) }
  function ActiveAt(now: int): Phase -> bool { (p: Phase) => IsValidPhase(p) && Covers(p, now) }

  /** `validPhases.find(...)`: the active phase. */
  function Active(s: seq<Phase>, now: int): Option<Phase> {
    Find(ValidPhases(s), CoversAt(now))
  }

  /** The active phase is the first phase of the schedule, in schedule order, that is
      valid and covers `now`; there is none exactly when no valid phase covers `now`. */
  lemma ActiveIsFirstCovering(s: seq<Phase>, now: int)
    ensures Active(s, now).Some? <==> exists j :: 0 <= j < |s| && IsValidPhase(s[j]) && Covers(s[j], now)
    ensures Active(s, now).Some? ==>
      exists i :: (0 <= i < |s| && s[i] == Active(s, now).value && IsValidPhase(s[i]) && Covers(s[i], now) &&
                   forall j :: 0 <= j < i ==> !(IsValidPhase(s[j]) && Covers(s[j], now)))
  {
    FindInFilter(s, ValidTest(), CoversAt(now), ActiveAt(now));
    var f := FindFirst(s, ActiveAt(now));
    if f.None? {
      assert forall j :: 0 <= j < |s| ==> !ActiveAt(now)(s[j]);
    } else {
      assert ActiveAt(now)(s[f.value]);
    }
  }

  /** The upcoming phases: valid and starting strictly after `now`. */
  function UpcomingList(s: seq<Phase>, now: int): seq<Phase> {
    Filter(ValidPhases(s), StartsAfterAt(now))
  }

  /** `...filter(...).sort((a, b) => start(a) - start(b))[0]`. */
  function Upcoming(s: seq<Phase>, now: int): Option<Phase> {
    var u := UpcomingList(s, now);
    if u == [] then None else Some(SortByKey(u, Key())[0])
  }

  /** The upcoming phase is a valid phase of the schedule that starts after `now`, no
      valid phase starts after `now` earlier than it, and among the phases that start at
      the same time it is the first in schedule order (the sort is stable). There is
      none exactly when no valid phase starts after `now`. */
  lemma UpcomingIsEarliest(s: seq<Phase>, now: int)
    ensures Upcoming(s, now).None? <==> forall j :: 0 <= j < |s| ==> !(IsValidPhase(s[j]) && StartsAfter(s[j], now))
    ensures Upcoming(s, now).Some? ==>
      var p := Upcoming(s, now).value;
      p in s && IsValidPhase(p) && StartsAfter(p, now) &&
      (forall j :: 0 <= j < |s| && IsValidPhase(s[j]) && StartsAfter(s[j], now) ==> KeyOf(p) <= KeyOf(s[j])) &&
      p == UpcomingList(s, now)[FirstMin(UpcomingList(s, now), Key())]
  {
    var v := ValidPhases(s);
    var u := UpcomingList(s, now);
    assert forall j :: 0 <= j < |s| && IsValidPhase(s[j]) && StartsAfter(s[j], now) ==> s[j] in u by {
      forall j | 0 <= j < |s| && IsValidPhase(s[j]) && StartsAfter(s[j], now) ensures s[j] in u {
        assert ValidTest()(s[j]);
        assert s[j] in v;
        var k :| 0 <= k < |v| && v[k] == s[j];
        assert StartsAfterAt(now)(v[k]);
      }
    }
    if u != [] {
      SortHead(u, Key());
      var m := FirstMin(u, Key());
      assert u[m] in v && StartsAfterAt(now)(u[m]);
      assert ValidTest()(u[m]);
      forall j | 0 <= j < |s| && IsValidPhase(s[j]) && StartsAfter(s[j], now) ensures KeyOf(u[m]) <= KeyOf(s[j]) {
        var k :| 0 <= k < |u| && u[k] == s[j];
        assert Key()(u[m]) <= Key()(u[k]);
      }
    }
  }

  // ---------------------------------------------------------------------------
  // Countdowns
  // ---------------------------------------------------------------------------

  datatype TimeLeft = TimeLeft(days: int, hours: int, mins: int, secs: int)

  /** The countdown of a positive number of milliseconds: whole days, then the hours,
      minutes and seconds left over, which together make up the whole seconds. */
  function Decompose(diff: int): (t: TimeLeft)
    requires diff > 0
    ensures t.days >= 0 && 0 <= t.hours < 24 && 0 <= t.mins < 60 && 0 <= t.secs < 60
    ensures 86400 * t.days + 3600 * t.hours + 60 * t.mins + t.secs == diff / 1000
    ensures t.days == DayOf(diff)
  {
    DivDiv(diff, 1000, 60);
    DivDiv(diff, 1000, 3600);
    DivDiv(diff, 1000, 86400);
    DivDiv(diff / 1000, 60, 60);
    DivDiv(diff / 1000, 3600, 24);
    TimeLeft(diff / 86400000, (diff / 3600000) % 24, (diff / 60000) % 60, (diff / 1000) % 60)
  }

  /** The countdown's new value: the decomposition of a positive difference; for a
      difference of zero or less, or NaN, the old value is kept. */
  function Countdown(old_: TimeLeft, diff: JsNumber): (t: TimeLeft)
    ensures diff.NaN? || diff.v <= 0 ==> t == old_
  {
    if diff.Num? && diff.v > 0 then Decompose(diff.v) else old_
  }

  /** The phase countdown towards `target`: refreshed when the target exists and lies
      in the future, else kept. */
  function Refresh(old_: Option<TimeLeft>, target: Option<int>, now: int): (t: Option<TimeLeft>)
    ensures target.None? || target.value <= now ==> t == old_
    ensures target.Some? && target.value > now ==> t.Some? && t.value.days == DayOf(target.value - now)
  {
    if target.Some? && target.value - now > 0 then Some(Decompose(target.value - now)) else old_
  }

  // ---------------------------------------------------------------------------
  // The smart planner
  // ---------------------------------------------------------------------------

  function NotCompleted(status: Status): Phase -> bool { (p: Phase) => !IsCompleted(status, p.id) }

  /** `remainingSubjects.length`. */
  function RemainingCount(s: seq<Phase>, status: Status): (n: nat)
    ensures n <= |s|
  {
    if s == [] then 0 else (if IsCompleted(status, s[0].id) then 0 else 1) + RemainingCount(s[1..], status)
  }

  /** The phase with the dates the planner writes while `rollingDate` is on `day`;
      `dayText` writes a day as a string, `DayText()` in the component. */

  function Assigned(p: Phase, day: int, d: int, dayText: int -> string): Phase {
    p.(start := dayText(day), end := dayText(day + d), isUndecided := false)
  }

  /** The planner's pass over the schedule from the rolling day `day`: each phase that
      is not completed gets the next `d` days. */
  function Plan(s: seq<Phase>, status: Status, day: int, d: int, dayText: int -> string): (r: seq<Phase>)
    ensures |r| == |s|
  {
    if s == [] then []
    else if IsCompleted(status, s[0].id) then [s[0]] + Plan(s[1..], status, day, d, dayText)
    else [Assigned(s[0], day, d, dayText)] + Plan(s[1..], status, day + d, d, dayText)
  }

  /** `Math.floor((exam - today) / day) - 30`. */
  function Budget(today: int, exam: int): int {
    (exam - today) / MsPerDay - 30
  }

  /** The planner keeps completed phases; the phase that is the k-th not-completed one
      (counting from 0) gets start day `day + k·d` and end day `day + (k+1)·d`. */
  lemma {:induction false} PlanAt(s: seq<Phase>, status: Status, day: int, d: int, dayText: int -> string, j: nat)
    requires j < |s|
    ensures IsCompleted(status, s[j].id) ==> Plan(s, status, day, d, dayText)[j] == s[j]
    ensures !IsCompleted(status, s[j].id) ==>
      Plan(s, status, day, d, dayText)[j] == Assigned(s[j], day + RemainingCount(s[..j], status) * d, d, dayText)
  {
    if j == 0 {
      PlanHead(s, status, day, d, dayText);
      assert s[..0] == [];
    } else {
      var next := if IsCompleted(status, s[0].id) then day else day + d;
      PlanAt(s[1..], status, next, d, dayText, j - 1);
      PlanAtTail(s, status, day, d, dayText, j);
    }
  }

  /** The step of `PlanAt` from the tail of the schedule to the whole of it. */
  lemma PlanAtTail(s: seq<Phase>, status: Status, day: int, d: int, dayText: int -> string, j: nat)
    requires 0 < j < |s|
    requires var t, next := s[1..], if IsCompleted(status, s[0].id) then day else day + d;
      (IsCompleted(status, t[j - 1].id) ==> Plan(t, status, next, d, dayText)[j - 1] == t[j - 1]) &&
      (!IsCompleted(status, t[j - 1].id) ==>
        Plan(t, status, next, d, dayText)[j - 1] == Assigned(t[j - 1], next + RemainingCount(t[..j - 1], status) * d, d, dayText))
    ensures IsCompleted(status, s[j].id) ==> Plan(s, status, day, d, dayText)[j] == s[j]
    ensures !IsCompleted(status, s[j].id) ==>
      Plan(s, status, day, d, dayText)[j] == Assigned(s[j], day + RemainingCount(s[..j], status) * d, d, dayText)
  {
    var t := s[1..];
    var next := if IsCompleted(status, s[0].id) then day else day + d;
    PlanTail(s, status, day, d, dayText);
    assert Plan(s, status, day, d, dayText)[j] == Plan(t, status, next, d, dayText)[j - 1];
    assert t[j - 1] == s[j];
    PrefixCount(s, status, j);
    var k := RemainingCount(s[..j], status);
    assert t[..j - 1] == s[1..][..j - 1];
    ShiftMul(day, k, d);
    assert next + RemainingCount(t[..j - 1], status) * d == day + k * d;
  }

  lemma PlanHead(s: seq<Phase>, status: Status, day: int, d: int, dayText: int -> string)
    requires s != []
    ensures Plan(s, status, day, d, dayText)[0] == if IsCompleted(status, s[0].id) then s[0] else Assigned(s[0], day, d, dayText)
  {
  }

  lemma PlanTail(s: seq<Phase>, status: Status, day: int, d: int, dayText: int -> string)
    requires s != []
    ensures Plan(s, status, day, d, dayText)[1..] ==
      Plan(s[1..], status, if IsCompleted(status, s[0].id) then day else day + d, d, dayText)
  {
  }

  /** Counting a prefix from its head. */
  lemma PrefixCount(s: seq<Phase>, status: Status, j: nat)
    requires 0 < j <= |s|
    ensures RemainingCount(s[..j], status) ==
      (if IsCompleted(status, s[0].id) then 0 else 1) + RemainingCount(s[1..][..j - 1], status)
  {
    assert s[..j][0] == s[0];
    assert s[..j][1..] == s[1..][..j - 1];
  }

  lemma ShiftMul(day: int, k: int, d: int)
    ensures day + d + (k - 1) * d == day + k * d
  {
  }

  /** Counting the prefix one element longer. */
  lemma {:induction false} RemainingPrefix(s: seq<Phase>, status: Status, j: nat)
    requires j < |s|
    ensures RemainingCount(s[..j + 1], status) ==
      RemainingCount(s[..j], status) + (if IsCompleted(status, s[j].id) then 0 else 1)
  {
    if j == 0 {
      assert s[..1][1..] == [];
      assert s[..0] == [];
    } else {
      assert s[..j + 1][1..] == s[1..][..j];
      assert s[..j][1..] == s[1..][..j - 1];
      RemainingPrefix(s[1..], status, j - 1);
    }
  }

  lemma {:induction false} RemainingMonotone(s: seq<Phase>, status: Status, i: nat, j: nat)
    requires i <= j <= |s|
    ensures RemainingCount(s[..i], status) <= RemainingCount(s[..j], status)
    ensures i < j && !IsCompleted(status, s[i].id) ==> RemainingCount(s[..i], status) < RemainingCount(s[..j], status)
    decreases j - i
  {
    if i < j {
      RemainingPrefix(s, status, i);
      RemainingMonotone(s, status, i + 1, j);
    }
  }

  /** Each planned phase ends no later than the budget: the last one at most `budget`
      days after today, so at least 30 days before the exam. */
  lemma PlanWithinBudget(s: seq<Phase>, status: Status, budget: int, j: nat)
    requires budget > 0 && j < |s|
    requires !IsCompleted(status, s[j].id)
    ensures RemainingCount(s[..j], status) + 1 <= RemainingCount(s, status)
    ensures (RemainingCount(s[..j], status) + 1) * (budget / RemainingCount(s, status)) <= budget
  {
    assert s[..|s|] == s;
    RemainingMonotone(s, status, j, |s|);
    ShareBound(RemainingCount(s[..j], status) + 1, RemainingCount(s, status), budget);
  }

  /** `m` shares of `floor(budget / n)` fit in the budget when `m <= n`. */
  lemma ShareBound(m: int, n: int, budget: int)
    requires 0 <= m <= n && n > 0 && budget > 0
    ensures m * (budget / n) <= budget
  {
    var d := budget / n;
    assert n * d <= budget;
    assert n * d - m * d == (n - m) * d;
    MulNonNeg(n - m, d);
  }

  lemma MulNonNeg(a: int, b: int)
    requires a >= 0 && b >= 0
    ensures a * b >= 0
  {
  }

  /** The next not-completed phase starts on the day the previous one ends. */
  lemma PlanContiguous(s: seq<Phase>, status: Status, day: int, d: int, dayText: int -> string, i: nat, j: nat)
    requires i < j < |s|
    requires !IsCompleted(status, s[i].id) && !IsCompleted(status, s[j].id)
    requires forall k :: i < k < j ==> IsCompleted(status, s[k].id)
    ensures Plan(s, status, day, d, dayText)[i].end == Plan(s, status, day, d, dayText)[j].start
  {
    PlanAt(s, status, day, d, dayText, i);
    PlanAt(s, status, day, d, dayText, j);
    RemainingPrefix(s, status, i);
    CompletedGap(s, status, i + 1, j);
    ShiftMul(day, RemainingCount(s[..j], status), d);
  }

  lemma {:induction false} CompletedGap(s: seq<Phase>, status: Status, i: nat, j: nat)
    requires i <= j <= |s|
    requires forall k :: i <= k < j ==> IsCompleted(status, s[k].id)
    ensures RemainingCount(s[..i], status) == RemainingCount(s[..j], status)
    decreases j - i
  {
    if i < j {
      RemainingPrefix(s, status, i);
      CompletedGap(s, status, i + 1, j);
    }
  }

  /** The schedule with the first not-completed phase's start set to `start`. */
  function MarkFirstStart(s: seq<Phase>, status: Status, start: string): (r: seq<Phase>)
    ensures |r| == |s|
  {
    if s == [] then []
    else if !IsCompleted(status, s[0].id) then [s[0].(start := start)] + s[1..]
    else [s[0]] + MarkFirstStart(s[1..], status, start)
  }

  /** Only the first not-completed phase changes, and only its start. */
  lemma {:induction false} MarkFirstStartAt(s: seq<Phase>, status: Status, start: string)
    requires FindFirst(s, NotCompleted(status)).Some?
    ensures MarkFirstStart(s, status, start) ==
      s[FindFirst(s, NotCompleted(status)).value := s[FindFirst(s, NotCompleted(status)).value].(start := start)]
  {
    if IsCompleted(status, s[0].id) {
      assert !NotCompleted(status)(s[0]);
      MarkFirstStartAt(s[1..], status, start);
    } else {
      assert NotCompleted(status)(s[0]);
    }
  }

  /** What `runSmartPlanner` ends with; the alerts it shows are not modelled. */
  datatype PlannerOutcome =
    | NothingRemaining   // every phase completed: return without a message
    | BufferBreached     // the 30-day buffer is already gone
    | Threw              // an unreadable exam date: toISOString throws a RangeError
    | Planned

  // ---------------------------------------------------------------------------
  // Editing
  // ---------------------------------------------------------------------------

  /** `saveEdit`'s map: a phase is undecided exactly when a date is missing. */
  function MarkUndecided(s: seq<Phase>): (r: seq<Phase>)
    ensures |r| == |s|
    ensures forall i :: 0 <= i < |s| ==> r[i].(isUndecided := s[i].isUndecided) == s[i]
    ensures forall i :: 0 <= i < |s| ==> (r[i].isUndecided <==> s[i].start == "" || s[i].end == "")
  {
    if s == [] then []
    else [s[0].(isUndecided := s[0].start == "" || s[0].end == "")] + MarkUndecided(s[1..])
  }

  /** After `saveEdit` a phase takes part in resolution exactly when it has both dates. */
  lemma MarkedValid(s: seq<Phase>)
    ensures forall i :: 0 <= i < |s| ==> (IsValidPhase(MarkUndecided(s)[i]) <==> s[i].start != "" && s[i].end != "")
  {
  }

  /** The text fields the editor writes through `updateEditData`. */
  datatype PhaseField = IdField | NameField | StartField | EndField

  function SetField(p: Phase, field: PhaseField, value: string): Phase {
    match field
    case IdField => p.(id := value)
    case NameField => p.(name := value)
    case StartField => p.(start := value)
    case EndField => p.(end := value)
  }

  /** `updateEditData`: every phase with that id gets the field; the others are kept. */
  function UpdateField(s: seq<Phase>, id: string, field: PhaseField, value: string): (r: seq<Phase>)
    ensures |r| == |s|
    ensures forall i :: 0 <= i < |s| && s[i].id != id ==> r[i] == s[i]
    ensures forall i :: 0 <= i < |s| && s[i].id == id ==> r[i] == SetField(s[i], field, value)
  {
    if s == [] then [] else [if s[0].id == id then SetField(s[0], field, value) else s[0]] + UpdateField(s[1..], id, field, value)
  }

  /** `toggleUndecidedEdit`'s change to one phase. */
  function FlipUndecided(p: Phase): (r: Phase)
    ensures r.id == p.id && r.name == p.name && r.isUndecided == !p.isUndecided
    ensures r.isUndecided ==> r.start == "" && r.end == ""
    ensures !r.isUndecided ==> r.start == p.start && r.end == p.end
  {
    var v := !p.isUndecided;
    p.(isUndecided := v, start := if v then "" else p.start, end := if v then "" else p.end)
  }

  function ToggleUndecided(s: seq<Phase>, id: string): (r: seq<Phase>)
    ensures |r| == |s|
    ensures forall i :: 0 <= i < |s| && s[i].id != id ==> r[i] == s[i]
    ensures forall i :: 0 <= i < |s| && s[i].id == id ==> r[i] == FlipUndecided(s[i])
  {
    if s == [] then [] else [if s[0].id == id then FlipUndecided(s[0]) else s[0]] + ToggleUndecided(s[1..], id)
  }

  /** Switching to undecided and back leaves the phase undecided-free with no dates:
      the dates cleared on the way there are not restored. */
  lemma ToggleUndecidedTwice(p: Phase)
    requires !p.isUndecided
    ensures FlipUndecided(FlipUndecided(p)) == p.(start := "", end := "")
  {
  }

  /** `addPhase`'s new phase: `phase_<Date.now()>`, dated today. */
  function NewPhase(nowMs: int): (p: Phase)
    ensures IsValidPhase(p) && p.start == p.end
  {
    var today := DayString(DayOf(nowMs));
    assert today != "" by { assert |IsoYear(CivilOf(DayOf(nowMs)).year)| >= 1; }
    Phase("phase_" + IntString(nowMs), "New Phase", today, today, false)
  }

  function NotId(id: string): Phase -> bool { (p: Phase) => p.id != id }

  /** `deletePhase`'s filter: the phases with another id, order kept. */
  function WithoutPhase(s: seq<Phase>, id: string): (r: seq<Phase>)
    ensures forall i :: 0 <= i < |r| ==> r[i].id != id && r[i] in s
    ensures forall p :: p in s && p.id != id ==> p in r
  {
    Filter(s, NotId(id))
  }

  // ---------------------------------------------------------------------------
  // Phase objects shared between the schedule and the edit copy
  // ---------------------------------------------------------------------------

  /** Object identity between the edit copy and the schedule: `links[i]` is the index of
      the schedule phase that the edit copy's `i`th phase is the same object as, or -1
      when it is an object of its own. A shared phase shows the schedule's values. */
  predicate Linked(edit: seq<Phase>, links: seq<int>, s: seq<Phase>) {
    |links| == |edit| &&
    forall i :: 0 <= i < |links| && links[i] >= 0 ==> links[i] < |s| && edit[i] == s[links[i]]
  }

  /** The edit copy after the schedule's phase objects were written: a shared phase is
      read from the new schedule, the others are kept. */
  function Relinked(edit: seq<Phase>, links: seq<int>, s: seq<Phase>): (r: seq<Phase>)
    ensures |r| == |edit|
    ensures forall i :: 0 <= i < |edit| && i < |links| && 0 <= links[i] < |s| ==> r[i] == s[links[i]]
    ensures forall i :: 0 <= i < |edit| && !(i < |links| && 0 <= links[i] < |s|) ==> r[i] == edit[i]
  {
    if edit == [] then []
    else if links == [] then edit
    else [if 0 <= links[0] < |s| then s[links[0]] else edit[0]] + Relinked(edit[1..], links[1..], s)
  }

  /** A write into one schedule phase reaches exactly the edit phases that are that
      object; the result shares the same objects. */
  lemma RelinkedAfterWrite(edit: seq<Phase>, links: seq<int>, s: seq<Phase>, j: int, p: Phase)
    requires Linked(edit, links, s) && 0 <= j < |s|
    ensures Linked(Relinked(edit, links, s[j := p]), links, s[j := p])
    ensures forall i :: 0 <= i < |edit| && links[i] == j ==> Relinked(edit, links, s[j := p])[i] == p
    ensures forall i :: 0 <= i < |edit| && links[i] != j ==> Relinked(edit, links, s[j := p])[i] == edit[i]
  {
  }

  /** While every phase is shared, as after mounting or a plan, a write into the schedule
      shows in the edit copy as a whole. */
  lemma {:induction false} RelinkedAllShared(edit: seq<Phase>, s: seq<Phase>)
    requires |edit| == |s|
    ensures Relinked(edit, AllShared(|s|), s) == s
  {
    var r := Relinked(edit, AllShared(|s|), s);
    forall i | 0 <= i < |s|
      ensures r[i] == s[i]
    {
      assert AllShared(|s|)[i] == i;
    }
  }

  /** The schedule and the edit copy set to the same array: every phase is shared. */
  function AllShared(n: nat): (r: seq<int>)
    ensures |r| == n && forall i :: 0 <= i < n ==> r[i] == i
  {
    seq(n, i => i)
  }

  /** Fresh objects throughout. */
  function NoneShared(n: nat): (r: seq<int>)
    ensures |r| == n && forall i :: 0 <= i < n ==> r[i] == -1
  {
    seq(n, i => -1)
  }

  lemma AllSharedLinked(s: seq<Phase>)
    ensures Linked(s, AllShared(|s|), s)
  {
  }

  /** `updateEditData` and `toggleUndecidedEdit` spread the phases with that id into new
      objects; the others stay shared as they were. */
  function DropLinks(edit: seq<Phase>, links: seq<int>, id: string): (r: seq<int>)
    ensures |r| == |links|
    ensures forall i :: 0 <= i < |links| && i < |edit| ==> r[i] == if edit[i].id == id then -1 else links[i]
  {
    seq(|links|, i requires 0 <= i < |links| => if i < |edit| && edit[i].id == id then -1 else links[i])
  }

  /** `addPhase` appends a new object, shared with nothing. */
  lemma AppendUnlinked(edit: seq<Phase>, links: seq<int>, s: seq<Phase>, p: Phase)
    requires Linked(edit, links, s)
    ensures Linked(edit + [p], links + [-1], s)
  {
    var e, l := edit + [p], links + [-1];
    forall i | 0 <= i < |l| && l[i] >= 0 ensures l[i] < |s| && e[i] == s[l[i]] {
      assert l[i] == links[i] && e[i] == edit[i];
    }
  }

  lemma UpdateFieldLinked(edit: seq<Phase>, links: seq<int>, s: seq<Phase>, id: string, field: PhaseField, value: string)
    requires Linked(edit, links, s)
    ensures Linked(UpdateField(edit, id, field, value), DropLinks(edit, links, id), s)
  {
  }

  lemma ToggleUndecidedLinked(edit: seq<Phase>, links: seq<int>, s: seq<Phase>, id: string)
    requires Linked(edit, links, s)
    ensures Linked(ToggleUndecided(edit, id), DropLinks(edit, links, id), s)
  {
  }

  /** `deletePhase`'s filter applied to the links alongside the phases. */
  function KeepLinks(edit: seq<Phase>, links: seq<int>, id: string): (r: seq<int>)
    ensures |r| <= |links|
  {
    if edit == [] || links == [] then []
    else (if edit[0].id != id then [links[0]] else []) + KeepLinks(edit[1..], links[1..], id)
  }

  lemma LinkedTail(edit: seq<Phase>, links: seq<int>, s: seq<Phase>)
    requires edit != [] && Linked(edit, links, s)
    ensures Linked(edit[1..], links[1..], s)
  {
    var e, l := edit[1..], links[1..];
    forall i | 0 <= i < |l| && l[i] >= 0 ensures l[i] < |s| && e[i] == s[l[i]] {
      assert l[i] == links[i + 1] && e[i] == edit[i + 1];
    }
  }

  lemma LinkedCons(p: Phase, link: int, edit: seq<Phase>, links: seq<int>, s: seq<Phase>)
    requires Linked(edit, links, s) && (link >= 0 ==> link < |s| && p == s[link])
    ensures Linked([p] + edit, [link] + links, s)
  {
    var e, l := [p] + edit, [link] + links;
    forall i | 0 <= i < |l| && l[i] >= 0 ensures l[i] < |s| && e[i] == s[l[i]] {
      if i > 0 {
        assert l[i] == links[i - 1] && e[i] == edit[i - 1];
      }
    }
  }

  /** The phases that survive the filter keep their objects. */
  lemma {:induction false} KeepLinksLinked(edit: seq<Phase>, links: seq<int>, s: seq<Phase>, id: string)
    requires Linked(edit, links, s)
    ensures Linked(WithoutPhase(edit, id), KeepLinks(edit, links, id), s)
  {
    if edit != [] {
      LinkedTail(edit, links, s);
      KeepLinksLinked(edit[1..], links[1..], s, id);
      var f, k := Filter(edit[1..], NotId(id)), KeepLinks(edit[1..], links[1..], id);
      assert Filter(edit, NotId(id)) == (if NotId(id)(edit[0]) then [edit[0]] else []) + f;
      if edit[0].id != id {
        LinkedCons(edit[0], links[0], f, k, s);
      }
    }
  }

  // ---------------------------------------------------------------------------
  // Progress
  // ---------------------------------------------------------------------------

  function B(b: bool): nat { if b then 1 else 0 }

  /** The number of flags set in a record. */
  function Flags(r: StatusRecord): nat {
    B(r.completed) + B(r.rev1) + B(r.rev2) + B(r.rev3)
  }

  /** `getProgress`: 25 per flag set; 0 for an id without a record. */
  function Progress(status: Status, id: string): (r: int)
    ensures id !in status ==> r == 0
    ensures 0 <= r <= 100 && r % 25 == 0
  {
    if id !in status then 0 else Flags(status[id]) * 100 / 4
  }

  /** The progress is a quarter per flag of the record a toggle would start from. */
  lemma Quarters(status: Status, id: string)
    ensures Progress(status, id) == 25 * Flags(RecordOf(status, id))
  {
  }

  /** Toggling one flag moves the progress by exactly 25, up when the flag was clear
      and down when it was set. */
  lemma ToggleProgress(status: Status, id: string, f: Flag)
    ensures Progress(Toggled(status, id, f), id) ==
      Progress(status, id) + (if Get(RecordOf(status, id), f) then -25 else 25)
  {
    var a := RecordOf(status, id);
    var b := Toggled(status, id, f)[id];
    assert RecordOf(Toggled(status, id, f), id) == b;
    FlipOne(a, b, f);
    Quarters(status, id);
    Quarters(Toggled(status, id, f), id);
  }

  /** Records that differ in exactly the flag `f` differ by one in their flag count. */
  lemma FlipOne(a: StatusRecord, b: StatusRecord, f: Flag)
    requires Get(b, f) == !Get(a, f) && forall g :: g != f ==> Get(b, g) == Get(a, g)
    ensures Flags(b) == Flags(a) + (if Get(a, f) then -1 else 1)
  {
    assert Get(b, Completed) == b.completed && Get(b, Rev1) == b.rev1 && Get(b, Rev2) == b.rev2 && Get(b, Rev3) == b.rev3;
    assert Get(a, Completed) == a.completed && Get(a, Rev1) == a.rev1 && Get(a, Rev2) == a.rev2 && Get(a, Rev3) == a.rev3;
  }

  // ---------------------------------------------------------------------------
  // The component
  // ---------------------------------------------------------------------------

  /** One step of the planner's pass: the phase at `i` and the rest of the pass. */
  lemma PlanStep(s: seq<Phase>, status: Status, i: nat, day: int, d: int, dayText: int -> string)
    requires i < |s|
    ensures Plan(s[i..], status, day, d, dayText) ==
      if IsCompleted(status, s[i].id) then [s[i]] + Plan(s[i + 1..], status, day, d, dayText)
      else [Assigned(s[i], day, d, dayText)] + Plan(s[i + 1..], status, day + d, d, dayText)
  {
    assert s[i..][0] == s[i];
    assert s[i..][1..] == s[i + 1..];
  }

  /** The `forEach` of `runSmartPlanner` with `d` days per subject: `rollingDate`, held
      as its day number, starts at the day of `today` and moves on by `d` days after
      each phase that is not completed. */
  method PlanPass(s: seq<Phase>, status: Status, today: int, d: int, dayText: int -> string) returns (out: seq<Phase>)
    ensures out == Plan(s, status, DayOf(today), d, dayText)
  {
    out := [];
    var rolling := DayOf(today);
    var i := 0;
    while i < |s|
      invariant 0 <= i <= |s|
      invariant out + Plan(s[i..], status, rolling, d, dayText) == Plan(s, status, DayOf(today), d, dayText)
    {
      PlanStep(s, status, i, rolling, d, dayText);
      var p := s[i];
      if !IsCompleted(status, p.id) {
        var planned := Assigned(p, rolling, d, dayText);
        SnocAssoc(out, planned, Plan(s[i + 1..], status, rolling + d, d, dayText));
        out := out + [planned];
        rolling := rolling + d;
      } else {
        SnocAssoc(out, p, Plan(s[i + 1..], status, rolling, d, dayText));
        out := out + [p];
      }
      i := i + 1;
    }
    assert s[i..] == [];
  }

  class Tracker {
    var status: Status
    var schedule: seq<Phase>
    var timeLeft: TimeLeft
    var currentPhase: Option<Phase>
    var isGap: bool
    var phaseTimeLeft: Option<TimeLeft>
    var now: int
    var isEditing: bool
    var editScheduleData: seq<Phase>
    var examDateStr: string
    const store: Store
    /** Which edit-copy phases are the same objects as schedule phases (see `Linked`). */
    var links: seq<int>

    /** The edit copy agrees with the schedule on every phase object the two share. */
    predicate SharesObjects()
      reads this
    {
      Linked(editScheduleData, links, schedule)
    }

    /** The initial state and the mount effect: status, schedule and exam date are read
        from the store; the edit copy starts as the schedule. */
    constructor (store: Store, nowMs: int)
      ensures this.store == store
      ensures status == GetSyllabusStatus(store.data) && schedule == GetSchedule(store.data)
      ensures editScheduleData == schedule && examDateStr == GetUserProfile(store.data).examDate
      ensures timeLeft == TimeLeft(0, 0, 0, 0) && currentPhase == None && !isGap && phaseTimeLeft == None
      ensures now == nowMs && !isEditing
      ensures links == AllShared(|schedule|) && SharesObjects()
    {
      this.store := store;
      status := GetSyllabusStatus(store.data);
      schedule := GetSchedule(store.data);
      editScheduleData := GetSchedule(store.data);
      examDateStr := GetUserProfile(store.data).examDate;
      timeLeft := TimeLeft(0, 0, 0, 0);
      currentPhase := None;
      isGap := false;
      phaseTimeLeft := None;
      now := nowMs;
      isEditing := false;
      links := AllShared(|GetSchedule(store.data)|);
    }

    /** One tick of the exam countdown. `exam` is `new Date(profile.examDate)`, whose
        parse of the date-time string is not modelled. */
    method Tick(currentTime: int, exam: Date)
      modifies this
      ensures examDateStr == old(examDateStr)
      ensures now == currentTime
      ensures timeLeft == Countdown(old(timeLeft), if exam.DateAt? then Num(exam.time - currentTime) else NaN)
      ensures status == old(status) && schedule == old(schedule) && currentPhase == old(currentPhase)
      ensures isGap == old(isGap) && phaseTimeLeft == old(phaseTimeLeft) && isEditing == old(isEditing)
      ensures editScheduleData == old(editScheduleData) && links == old(links)
    {
      now := currentTime;
      if exam.DateAt? {
        var diff := exam.time - currentTime;
        if diff > 0 {
          timeLeft := Decompose(diff);
        }
      }
    }

    /** The effect on `[now, schedule]`: the active phase, else the next upcoming one
        (a gap), else none; the phase countdown is refreshed when its difference is positive. */
    method Resolve()
      modifies this
      ensures examDateStr == old(examDateStr)
      ensures status == old(status) && schedule == old(schedule) && timeLeft == old(timeLeft)
      ensures now == old(now) && isEditing == old(isEditing) && editScheduleData == old(editScheduleData)
      ensures links == old(links)
      ensures Active(schedule, now).Some? ==>
        currentPhase == Active(schedule, now) && !isGap &&
        phaseTimeLeft == Refresh(old(phaseTimeLeft), EndTime(currentPhase.value), now)
      ensures Active(schedule, now).None? && Upcoming(schedule, now).Some? ==>
        currentPhase == Upcoming(schedule, now) && isGap &&
        phaseTimeLeft == Refresh(old(phaseTimeLeft), StartKey(currentPhase.value), now)
      ensures Active(schedule, now).None? && Upcoming(schedule, now).None? ==>
        currentPhase == None && !isGap && phaseTimeLeft == old(phaseTimeLeft)
    {
      var active := Active(schedule, now);
      if active.Some? {
        ShowPhase(active.value, false, EndTime(active.value));
      } else {
        var upcoming := Upcoming(schedule, now);
        if upcoming.Some? {
          ShowPhase(upcoming.value, true, StartKey(upcoming.value));
        } else {
          currentPhase := None;
          isGap := false;
        }
      }
    }

    /** The state change for a resolved phase: shown as the current phase, as a gap when
        it is upcoming; the countdown runs to `target` (its end, or its start in a gap)
        and is kept when that instant is missing or not in the future. */
    method ShowPhase(p: Phase, gap: bool, target: Option<int>)
      modifies this
      ensures examDateStr == old(examDateStr)
      ensures currentPhase == Some(p) && isGap == gap
      ensures phaseTimeLeft == Refresh(old(phaseTimeLeft), target, now)
      ensures status == old(status) && schedule == old(schedule) && timeLeft == old(timeLeft)
      ensures now == old(now) && isEditing == old(isEditing) && editScheduleData == old(editScheduleData)
      ensures links == old(links)
    {
      currentPhase := Some(p);
      isGap := gap;
      if target.Some? {
        var diff := target.value - now;
        if diff > 0 {
          phaseTimeLeft := Some(Decompose(diff));
        }
      }
    }

    /** `runSmartPlanner`, with `today` both the `new Date()` of the budget and the start
        of `rollingDate`. The dates are written into the schedule's phase objects: after a
        plan the edit copy is the schedule's array; when the loop throws, the start date
        written first shows in every edit phase that is the same object. */
    method RunSmartPlanner(today: int, exam: Date) returns (outcome: PlannerOutcome)
      modifies this
      ensures examDateStr == old(examDateStr)
      ensures RemainingCount(old(schedule), old(status)) == 0 ==> outcome == NothingRemaining
      ensures RemainingCount(old(schedule), old(status)) > 0 && exam.InvalidDate? ==> outcome == Threw
      ensures RemainingCount(old(schedule), old(status)) > 0 && exam.DateAt? ==>
        (outcome == BufferBreached <==> Budget(today, exam.time) <= 0)
      ensures RemainingCount(old(schedule), old(status)) > 0 && exam.DateAt? && Budget(today, exam.time) > 0 ==>
        outcome == Planned
      ensures outcome == NothingRemaining || outcome == BufferBreached ==>
        schedule == old(schedule) && editScheduleData == old(editScheduleData) && isEditing == old(isEditing) &&
        links == old(links)
      ensures outcome == Threw ==>
        schedule == MarkFirstStart(old(schedule), old(status), DayText()(DayOf(today))) &&
        editScheduleData == Relinked(old(editScheduleData), old(links), schedule) &&
        isEditing == old(isEditing) && links == old(links)
      ensures outcome == Planned ==>
        exam.DateAt? &&
        var d := Budget(today, exam.time) / RemainingCount(old(schedule), old(status));
        schedule == Plan(old(schedule), old(status), DayOf(today), d, DayText()) && editScheduleData == schedule && isEditing &&
        links == AllShared(|schedule|)
      ensures old(SharesObjects()) ==> SharesObjects()
      ensures status == old(status) && timeLeft == old(timeLeft) && currentPhase == old(currentPhase)
      ensures isGap == old(isGap) && phaseTimeLeft == old(phaseTimeLeft) && now == old(now)
    {
      var n := RemainingCount(schedule, status);
      if n == 0 {
        outcome := NothingRemaining;
      } else if exam.InvalidDate? {
        // NaN days per subject: the first remaining phase gets its start, then the
        // invalid rolling date's toISOString throws.
        MarkFirstRemaining(DayText()(DayOf(today)));
        outcome := Threw;
      } else {
        var budget := Budget(today, exam.time);
        if budget <= 0 {
          outcome := BufferBreached;
        } else {
          var d := budget / n;
          var out := PlanPass(schedule, status, today, d, DayText());
          ApplyPlan(out);
          outcome := Planned;
        }
      }
    }

    /** The planned schedule is shown and edited. */
    method ApplyPlan(out: seq<Phase>)
      modifies this
      ensures examDateStr == old(examDateStr)
      ensures schedule == out && editScheduleData == out && isEditing
      ensures links == AllShared(|out|) && SharesObjects()
      ensures status == old(status) && timeLeft == old(timeLeft) && currentPhase == old(currentPhase)
      ensures isGap == old(isGap) && phaseTimeLeft == old(phaseTimeLeft) && now == old(now)
    {
      schedule := out;
      editScheduleData := out;
      isEditing := true;
      links := AllShared(|out|);
    }

    /** The first phase that is not completed gets `start` as its start date, in place:
        the edit phases that are the same object show it too. */
    method MarkFirstRemaining(start: string)
      modifies this
      ensures examDateStr == old(examDateStr)
      ensures schedule == MarkFirstStart(old(schedule), old(status), start)
      ensures editScheduleData == Relinked(old(editScheduleData), old(links), schedule)
      ensures old(SharesObjects()) ==> SharesObjects()
      ensures status == old(status) && timeLeft == old(timeLeft) && currentPhase == old(currentPhase)
      ensures isGap == old(isGap) && phaseTimeLeft == old(phaseTimeLeft) && now == old(now)
      ensures isEditing == old(isEditing) && links == old(links)
    {
      var before := schedule;
      schedule := MarkFirstStart(schedule, status, start);
      var f := FindFirst(before, NotCompleted(status));
      if f.Some? && Linked(editScheduleData, links, before) {
        MarkFirstStartAt(before, status, start);
        RelinkedAfterWrite(editScheduleData, links, before, f.value, schedule[f.value]);
      }
      editScheduleData := Relinked(editScheduleData, links, schedule);
    }

    /** `toggleCheck`: flips one flag and writes the status through the store. */
    method ToggleCheck(id: string, f: Flag, stamp: string)
      requires store.Valid()
      modifies this, store
      ensures examDateStr == old(examDateStr)
      ensures status == Toggled(old(status), id, f)
      ensures store.Valid() && store.data == WithBackup(old(store.data)[SyllabusKey := SyllabusValue(status)], store.loadedAt, stamp)
      ensures schedule == old(schedule) && editScheduleData == old(editScheduleData) && isEditing == old(isEditing)
      ensures links == old(links) && currentPhase == old(currentPhase) && isGap == old(isGap) && now == old(now)
      ensures timeLeft == old(timeLeft) && phaseTimeLeft == old(phaseTimeLeft)
    {
      status := Toggled(status, id, f);
      store.SaveSyllabusStatus(status, stamp);
    }

    /** `saveEdit`: stores the edit copy with the undecided flags recomputed and reloads
        the schedule, which comes back sorted by start date. */
    method SaveEdit(stamp: string)
      requires store.Valid()
      modifies this, store
      ensures store.Valid()
      ensures store.data == WithBackup(old(store.data)[ScheduleKey := ScheduleValue(SortSchedule(MarkUndecided(old(editScheduleData))))], store.loadedAt, stamp)
      ensures schedule == SortSchedule(MarkUndecided(old(editScheduleData))) && !isEditing
      ensures links == NoneShared(|editScheduleData|) && SharesObjects()
      ensures unchanged(this`status, this`editScheduleData, this`currentPhase, this`isGap, this`now, this`timeLeft, this`phaseTimeLeft, this`examDateStr)
    {
      var finalData := MarkUndecided(editScheduleData);
      store.SaveSchedule(finalData, stamp);
      schedule := GetSchedule(store.data);
      isEditing := false;
      links := NoneShared(|editScheduleData|);
    }

    method UpdateEditData(id: string, field: PhaseField, value: string)
      modifies this
      ensures unchanged(this`timeLeft, this`currentPhase, this`isGap, this`phaseTimeLeft, this`now, this`examDateStr)
      ensures editScheduleData == UpdateField(old(editScheduleData), id, field, value)
      ensures schedule == old(schedule) && status == old(status) && isEditing == old(isEditing)
      ensures links == DropLinks(old(editScheduleData), old(links), id)
      ensures old(SharesObjects()) ==> SharesObjects()
    {
      if SharesObjects() {
        UpdateFieldLinked(editScheduleData, links, schedule, id, field, value);
      }
      links := DropLinks(editScheduleData, links, id);
      editScheduleData := UpdateField(editScheduleData, id, field, value);
    }

    method ToggleUndecidedEdit(id: string)
      modifies this
      ensures unchanged(this`timeLeft, this`currentPhase, this`isGap, this`phaseTimeLeft, this`now, this`examDateStr)
      ensures editScheduleData == ToggleUndecided(old(editScheduleData), id)
      ensures schedule == old(schedule) && status == old(status) && isEditing == old(isEditing)
      ensures links == DropLinks(old(editScheduleData), old(links), id)
      ensures old(SharesObjects()) ==> SharesObjects()
    {
      if SharesObjects() {
        ToggleUndecidedLinked(editScheduleData, links, schedule, id);
      }
      links := DropLinks(editScheduleData, links, id);
      editScheduleData := ToggleUndecided(editScheduleData, id);
    }

    method AddPhase(nowMs: int)
      modifies this
      ensures unchanged(this`timeLeft, this`currentPhase, this`isGap, this`phaseTimeLeft, this`now, this`examDateStr)
      ensures editScheduleData == old(editScheduleData) + [NewPhase(nowMs)]
      ensures schedule == old(schedule) && status == old(status) && isEditing == old(isEditing)
      ensures links == old(links) + [-1]
      ensures old(SharesObjects()) ==> SharesObjects()
    {
      var p := NewPhase(nowMs);
      if SharesObjects() {
        AppendUnlinked(editScheduleData, links, schedule, p);
      }
      editScheduleData, links := editScheduleData + [p], links + [-1];
    }

    /** `deletePhase`; `confirmed` is the answer to the confirmation dialog. */
    method DeletePhase(id: string, confirmed: bool)
      modifies this
      ensures unchanged(this`timeLeft, this`currentPhase, this`isGap, this`phaseTimeLeft, this`now, this`examDateStr)
      ensures editScheduleData == if confirmed then WithoutPhase(old(editScheduleData), id) else old(editScheduleData)
      ensures schedule == old(schedule) && status == old(status) && isEditing == old(isEditing)
      ensures links == if confirmed then KeepLinks(old(editScheduleData), old(links), id) else old(links)
      ensures old(SharesObjects()) ==> SharesObjects()
    {
      if confirmed {
        if SharesObjects() {
          KeepLinksLinked(editScheduleData, links, schedule, id);
        }
        links := KeepLinks(editScheduleData, links, id);
        editScheduleData := WithoutPhase(editScheduleData, id);
      }
    }
  }

  /** For an upcoming phase the gap countdown is always refreshed, with the whole days
      until its start. */
  lemma GapAlwaysRefreshed(s: seq<Phase>, now: int, old_: Option<TimeLeft>)
    requires Upcoming(s, now).Some?
    ensures StartsAfter(Upcoming(s, now).value, now)
    ensures Refresh(old_, StartKey(Upcoming(s, now).value), now).Some?
    ensures Refresh(old_, StartKey(Upcoming(s, now).value), now).value.days == DayOf(StartKey(Upcoming(s, now).value).value - now)
  {
    UpcomingIsEarliest(s, now);
    var p := Upcoming(s, now).value;
    assert StartsAfter(p, now);
    var t := StartKey(p);
    assert t.Some? && t.value > now;
    var r := Refresh(old_, t, now);
    assert r.Some? && r.value.days == DayOf(t.value - now);
  }

  /** For the active phase the countdown is refreshed unless `now` is the very last
      millisecond of the phase, when the old value stays. */
  lemma ActiveRefresh(s: seq<Phase>, now: int, old_: Option<TimeLeft>)
    requires Active(s, now).Some?
    ensures EndTime(Active(s, now).value).Some? && EndTime(Active(s, now).value).value >= now
    ensures EndTime(Active(s, now).value).value == now ==> Refresh(old_, EndTime(Active(s, now).value), now) == old_
  {
    var i := FindFirst(ValidPhases(s), CoversAt(now));
    assert CoversAt(now)(ValidPhases(s)[i.value]);
  }

}
