/** src/components/Onboarding.tsx: the three-step setup wizard. Step 1 asks for the
    user's name, step 2 for the target exam years, step 3 for the preparation schedule;
    finishing saves the profile and the schedule. The clock (`Date.now()`) is the `now`
    parameter of the operations that read it. */
module Onboarding {
  import opened Common
  import opened Calendar
  import opened Model
  import opened Storage
  import opened SyllabusTracker

  /** The years offered on step 2. */
  const AvailableYears: seq<int> := [2026, 2027, 2028, 2029, 2030]

  // ---------------------------------------------------------------------------
  // The initial schedule
  // ---------------------------------------------------------------------------

  /** The template with every phase marked undecided. */
  function AllUndecided(s: seq<Phase>): (r: seq<Phase>)
    ensures |r| == |s|
    ensures forall i :: 0 <= i < |s| ==> r[i].isUndecided && r[i].(isUndecided := s[i].isUndecided) == s[i]
  {
    seq(|s|, i requires 0 <= i < |s| => s[i].(isUndecided := true))
  }

  /** The mount effect's schedule. */
  function InitialSchedule(): seq<Phase> {
    AllUndecided(DefaultSchedule)
  }

  /** An all-undecided schedule has no valid phase. */
  lemma {:induction false} NoValidPhases(s: seq<Phase>)
    requires forall i :: 0 <= i < |s| ==> s[i].isUndecided
    ensures ValidPhases(s) == []
  {
    if s != [] {
      assert !ValidTest()(s[0]);
      NoValidPhases(s[1..]);
    }
  }

  /** The initial schedule keeps the template's ids, names and dates, and because every
      phase is undecided none of them is active or upcoming at any time. */
  lemma InitialScheduleInert(now: int)
    ensures |InitialSchedule()| == |DefaultSchedule|
    ensures forall i :: 0 <= i < |DefaultSchedule| ==>
      InitialSchedule()[i] == DefaultSchedule[i].(isUndecided := true)
    ensures Active(InitialSchedule(), now) == None && Upcoming(InitialSchedule(), now) == None
  {
    var s := InitialSchedule();
    forall i | 0 <= i < |DefaultSchedule| ensures s[i] == DefaultSchedule[i].(isUndecided := true) {
      assert s[i].(isUndecided := DefaultSchedule[i].isUndecided) == DefaultSchedule[i];
    }
    NoValidPhases(s);
    assert UpcomingList(s, now) == [];
  }

  // ---------------------------------------------------------------------------
  // Steps
  // ---------------------------------------------------------------------------

  /** `handleNextStep`: 1 to 2 with a name that is not blank, 2 to 3 with at least one
      year; otherwise the step stays. */
  function NextStep(step: int, name: string, years: seq<int>): (r: int)
    ensures r == step || r == step + 1
    ensures r != step <==> (step == 1 && !AllSpace(name)) || (step == 2 && |years| > 0)
  {
    if step == 1 && Trim(name) != "" then 2
    else if step == 2 && |years| > 0 then 3
    else step
  }

  /** The wizard never leaves steps 1 to 3, and arriving at step 3 needs a year. */
  lemma StepsStayInRange(step: int, name: string, years: seq<int>)
    requires 1 <= step <= 3
    ensures 1 <= NextStep(step, name, years) <= 3
    ensures step == 3 ==> NextStep(step, name, years) == 3
    ensures NextStep(step, name, years) == 3 ==> |years| > 0 || step == 3
  {
  }

  // ---------------------------------------------------------------------------
  // Target years
  // ---------------------------------------------------------------------------

  /** Strictly increasing: sorted and without duplicates. */
  predicate Strict(s: seq<int>) {
    forall i, j :: 0 <= i < j < |s| ==> s[i] < s[j]
  }

  function YearKey(): int -> real { (y: int) => y as real }

  function NotYear(y: int): int -> bool { (x: int) => x != y }

  /** `toggleYear`: a present year is filtered out, an absent one is appended and the
      list sorted. */
  function YearsToggled(years: seq<int>, y: int): seq<int> {
    if y in years then Filter(years, NotYear(y)) else SortByKey(years + [y], YearKey())
  }

  lemma StrictTail(s: seq<int>)
    requires Strict(s) && s != []
    ensures Strict(s[1..]) && forall x :: x in s[1..] ==> s[0] < x
  {
  }

  lemma StrictCons(a: int, t: seq<int>)
    requires Strict(t) && forall x :: x in t ==> a < x
    ensures Strict([a] + t)
  {
    var s := [a] + t;
    forall i, j | 0 <= i < j < |s| ensures s[i] < s[j] {
      assert s[j] == t[j - 1] && t[j - 1] in t;
      if i > 0 {
        assert s[i] == t[i - 1];
      }
    }
  }

  lemma {:induction false} FilterStrict(s: seq<int>, y: int)
    requires Strict(s)
    ensures Strict(Filter(s, NotYear(y)))
  {
    if s != [] {
      StrictTail(s);
      FilterStrict(s[1..], y);
      var t := Filter(s[1..], NotYear(y));
      if NotYear(y)(s[0]) {
        assert forall x :: x in t ==> x in s[1..];
        StrictCons(s[0], t);
      }
    }
  }

  lemma {:induction false} InsertStrict(y: int, s: seq<int>)
    requires Strict(s) && y !in s
    ensures Strict(Insert(y, s, YearKey()))
  {
    if s == [] {
    } else if YearKey()(y) < YearKey()(s[0]) {
      StrictTail(s);
      StrictCons(y, s);
    } else {
      StrictTail(s);
      assert y != s[0];
      InsertStrict(y, s[1..]);
      var t := Insert(y, s[1..], YearKey());
      forall x | x in t ensures s[0] < x {
        assert x in multiset(t);
        assert x == y || x in multiset(s[1..]);
      }
      StrictCons(s[0], t);
    }
  }

  /** Appending an element no smaller than every other places it last. */
  lemma {:induction false} InsertLast(x: int, s: seq<int>)
    requires forall i :: 0 <= i < |s| ==> s[i] <= x
    ensures Insert(x, s, YearKey()) == s + [x]
  {
    if s != [] {
      InsertLast(x, s[1..]);
      assert [s[0]] + (s[1..] + [x]) == s + [x];
    }
  }

  /** Sorting a strictly increasing list leaves it as it is. */
  lemma {:induction false} SortStrict(s: seq<int>)
    requires Strict(s)
    ensures SortByKey(s, YearKey()) == s
  {
    if s != [] {
      var init := s[..|s| - 1];
      assert Strict(init);
      SortStrict(init);
      InsertLast(s[|s| - 1], init);
      assert init + [s[|s| - 1]] == s;
    }
  }

  /** On a sorted list without duplicates, `toggleYear` removes `y` when present and adds
      it when absent, and the list stays sorted without duplicates. */
  lemma ToggleYearSpec(years: seq<int>, y: int)
    requires Strict(years)
    ensures Strict(YearsToggled(years, y))
    ensures forall x :: x in YearsToggled(years, y) <==> (if x == y then y !in years else x in years)
  {
    var r := YearsToggled(years, y);
    if y in years {
      FilterStrict(years, y);
      forall x | x in years && x != y ensures x in r {
        var i :| 0 <= i < |years| && years[i] == x;
        assert NotYear(y)(years[i]);
      }
    } else {
      assert (years + [y])[..|years|] == years;
      SortStrict(years);
      assert r == Insert(y, years, YearKey());
      InsertStrict(y, years);
      forall x ensures x in r <==> x in multiset(years) + multiset{y} {
        assert x in r <==> x in multiset(r);
      }
    }
  }

  /** Two strictly increasing lists with the same elements are equal. */
  lemma {:induction false} StrictDetermined(a: seq<int>, b: seq<int>)
    requires Strict(a) && Strict(b)
    requires forall x :: x in a <==> x in b
    ensures a == b
  {
    if a != [] {
      assert a[0] in a;
      assert a[0] in b;
    }
    if b != [] {
      assert b[0] in b;
      assert b[0] in a;
    }
    if a != [] {
      StrictTail(a);
      StrictTail(b);
      assert a[0] == b[0] by {
        assert a[0] in b && b[0] in a;
        assert b[0] <= a[0] by { assert b == [b[0]] + b[1..]; }
        assert a[0] <= b[0] by { assert a == [a[0]] + a[1..]; }
      }
      forall x ensures x in a[1..] <==> x in b[1..] {
        assert x in a <==> x == a[0] || x in a[1..] by { assert a == [a[0]] + a[1..]; }
        assert x in b <==> x == b[0] || x in b[1..] by { assert b == [b[0]] + b[1..]; }
      }
      StrictDetermined(a[1..], b[1..]);
      assert a == [a[0]] + a[1..] && b == [b[0]] + b[1..];
    }
  }

  /** Toggling the same year twice gives back the list exactly. */
  lemma ToggleYearTwice(years: seq<int>, y: int)
    requires Strict(years)
    ensures YearsToggled(YearsToggled(years, y), y) == years
  {
    ToggleYearSpec(years, y);
    ToggleYearSpec(YearsToggled(years, y), y);
    StrictDetermined(YearsToggled(YearsToggled(years, y), y), years);
  }

  // ---------------------------------------------------------------------------
  // Finishing
  // ---------------------------------------------------------------------------

  /** `Math.min(...targetYears)`, which is `Infinity` for no years. */
  function MinYear(years: seq<int>): (r: Option<int>)
    ensures r.None? <==> years == []
    ensures r.Some? ==> r.value in years && forall x :: x in years ==> r.value <= x
  {
    if years == [] then None
    else
      var m := MinYear(years[1..]);
      assert years == [years[0]] + years[1..];
      if m.None? || years[0] <= m.value then Some(years[0]) else m
  }

  /** `${primaryYear}-02-05T09:00:00`. */
  function ExamDateFor(years: seq<int>): string {
    var m := MinYear(years);
    (if m.Some? then IntString(m.value) else "Infinity") + "-02-05T09:00:00"
  }

  /** On the wizard's sorted year list the primary year is the first one. */
  lemma PrimaryYearIsFirst(years: seq<int>)
    requires Strict(years) && years != []
    ensures MinYear(years) == Some(years[0])
    ensures ExamDateFor(years) == IntString(years[0]) + "-02-05T09:00:00"
  {
    var m := MinYear(years).value;
    var i :| 0 <= i < |years| && years[i] == m;
    assert years[0] in years;
  }

  /** The saved profile: trimmed name, the computed exam date, setup complete. */
  function FinishProfile(name: string, years: seq<int>): (p: UserProfile)
    ensures p.name == Trim(name) && p.targetYears == years && p.isSetupComplete
    ensures years != [] ==> p.examDate == IntString(MinYear(years).value) + "-02-05T09:00:00"
  {
    UserProfile(Trim(name), ExamDateFor(years), years, true)
  }

  /** `finalSchedule`: undecided phases lose their dates, decided ones keep them. */
  function BlankUndecided(s: seq<Phase>): (r: seq<Phase>)
    ensures |r| == |s|
    ensures forall i :: 0 <= i < |s| && !s[i].isUndecided ==> r[i] == s[i]
    ensures forall i :: 0 <= i < |s| && s[i].isUndecided ==> r[i] == s[i].(start := "", end := "")
  {
    if s == [] then []
    else [if s[0].isUndecided then s[0].(start := "", end := "") else s[0]] + BlankUndecided(s[1..])
  }

  /** Blanking changes no phase that takes part in resolution and makes none valid, so
      the active and upcoming phases of the saved schedule are those of the edited one. */
  lemma {:induction false} BlankKeepsValidPhases(s: seq<Phase>)
    ensures ValidPhases(BlankUndecided(s)) == ValidPhases(s)
  {
    if s != [] {
      var b := BlankUndecided(s);
      assert b[1..] == BlankUndecided(s[1..]);
      BlankKeepsValidPhases(s[1..]);
      assert ValidTest()(b[0]) == ValidTest()(s[0]);
    }
  }

  /** Blanking twice is blanking once. */
  lemma BlankIdempotent(s: seq<Phase>)
    ensures BlankUndecided(BlankUndecided(s)) == BlankUndecided(s)
  {
    var b := BlankUndecided(s);
    assert forall i :: 0 <= i < |b| ==> BlankUndecided(b)[i] == b[i];
  }

  /** After finishing every saved phase is either decided as edited or has no dates; in
      particular the tracker's editor would save it with the same undecided flags. */
  lemma BlankAgreesWithEditor(s: seq<Phase>)
    requires forall i :: 0 <= i < |s| && !s[i].isUndecided ==> s[i].start != "" && s[i].end != ""
    ensures MarkUndecided(BlankUndecided(s)) == BlankUndecided(s)
  {
    var b := BlankUndecided(s);
    var m := MarkUndecided(b);
    forall i | 0 <= i < |b| ensures m[i] == b[i] {
      assert m[i].(isUndecided := b[i].isUndecided) == b[i];
    }
  }

  // ---------------------------------------------------------------------------
  // Schedule edits
  // ---------------------------------------------------------------------------

  /** The edits `updatePhase` is called with: a text field, or the undecided flag. */
  datatype PhaseEdit = SetText(field: PhaseField, value: string) | SetUndecided(flag: bool)

  function ApplyEdit(p: Phase, e: PhaseEdit): Phase {
    match e
    case SetText(f, v) => SetField(p, f, v)
    case SetUndecided(b) => p.(isUndecided := b)
  }

  /** `updatePhase`: every phase with that id gets the edit, the others are kept. */
  function PhasesEdited(s: seq<Phase>, id: string, e: PhaseEdit): (r: seq<Phase>)
    ensures |r| == |s|
    ensures forall i :: 0 <= i < |s| && s[i].id != id ==> r[i] == s[i]
    ensures forall i :: 0 <= i < |s| && s[i].id == id ==> r[i] == ApplyEdit(s[i], e)
  {
    if s == [] then [] else [if s[0].id == id then ApplyEdit(s[0], e) else s[0]] + PhasesEdited(s[1..], id, e)
  }

  /** Unlike the tracker's editor, switching the undecided flag here keeps the dates, so
      a second click restores the schedule exactly. */
  lemma UndecidedClickTwice(s: seq<Phase>, id: string, b: bool)
    requires forall i :: 0 <= i < |s| && s[i].id == id ==> s[i].isUndecided == b
    ensures forall i :: 0 <= i < |s| ==>
      PhasesEdited(s, id, SetUndecided(!b))[i].start == s[i].start &&
      PhasesEdited(s, id, SetUndecided(!b))[i].end == s[i].end
    ensures PhasesEdited(PhasesEdited(s, id, SetUndecided(!b)), id, SetUndecided(b)) == s
  {
    var t := PhasesEdited(s, id, SetUndecided(!b));
    var u := PhasesEdited(t, id, SetUndecided(b));
    assert forall i :: 0 <= i < |s| ==> u[i] == s[i];
  }

  /** `addPhase`'s new phase: `custom_<Date.now()>`, dated today, undecided. */
  function CustomPhase(now: int): (p: Phase)
    ensures p.isUndecided && p.name == "New Phase" && p.start == p.end
    ensures p.id == "custom_" + IntString(now)
  {
    var today := DayString(DayOf(now));
    Phase("custom_" + IntString(now), "New Phase", today, today, true)
  }

  /** A phase added and left undecided is saved without dates. */
  lemma AddedPhaseSavedBlank(s: seq<Phase>, now: int)
    ensures BlankUndecided(s + [CustomPhase(now)]) == BlankUndecided(s) + [CustomPhase(now).(start := "", end := "")]
  {
    var l := BlankUndecided(s + [CustomPhase(now)]);
    var r := BlankUndecided(s) + [CustomPhase(now).(start := "", end := "")];
    assert forall i :: 0 <= i < |s| ==> (s + [CustomPhase(now)])[i] == s[i];
    assert forall i :: 0 <= i < |l| ==> l[i] == r[i];
  }

  /** Saving the schedule leaves the stored profile as it is. */
  lemma ProfileKept(s: LocalStorage, v: Value, loadedAt: string, stamp: string)
    ensures GetUserProfile(WithBackup(s[ScheduleKey := v], loadedAt, stamp)) == GetUserProfile(s)
  {
    BackupOnlyTouchesBackup(s[ScheduleKey := v], loadedAt, stamp);
  }

  /** The two writes of `handleFinish`: the profile, then the schedule. */
  method SaveSetup(store: Store, profile: UserProfile, schedule: seq<Phase>, stamp: string)
    returns (ghost afterProfile: LocalStorage)
    requires store.Valid()
    modifies store
    ensures store.Valid()
    ensures GetUserProfile(store.data) == profile && GetSchedule(store.data) == SortSchedule(schedule)
    ensures afterProfile == WithBackup(old(store.data)[ProfileKey := ProfileValue(Stored(profile))], store.loadedAt, stamp)
    ensures store.data == WithBackup(afterProfile[ScheduleKey := ScheduleValue(SortSchedule(schedule))], store.loadedAt, stamp)
  {
    store.SaveUserProfile(profile, stamp);
    afterProfile := store.data;
    ProfileKept(store.data, ScheduleValue(SortSchedule(schedule)), store.loadedAt, stamp);
    store.SaveSchedule(schedule, stamp);
  }

  // ---------------------------------------------------------------------------
  // The wizard
  // ---------------------------------------------------------------------------

  class Wizard {
    var step: int
    var name: string
    var targetYears: seq<int>
    var schedule: seq<Phase>
    const store: Store

    /** The wizard's own invariant: one of the three steps, and the years sorted without
        duplicates. */
    ghost predicate Valid()
      reads this
    {
      1 <= step <= 3 && Strict(targetYears)
    }

    /** The initial state, before the mount effect has run: no name, no years and an
        empty schedule. */
    constructor (store: Store)
      ensures Valid() && this.store == store
      ensures step == 1 && name == "" && targetYears == [] && schedule == []
    {
      step := 1;
      name := "";
      targetYears := [];
      schedule := [];
      this.store := store;
    }

    /** The mount effect: the template with every phase marked undecided. */
    method MountEffect()
      requires Valid()
      modifies this
      ensures Valid() && schedule == InitialSchedule()
      ensures step == old(step) && name == old(name) && targetYears == old(targetYears)
    {
      schedule := InitialSchedule();
    }

    /** The name field's `onChange`. */
    method SetName(value: string)
      modifies this
      ensures name == value && step == old(step) && targetYears == old(targetYears) && schedule == old(schedule)
    {
      name := value;
    }

    method HandleNextStep()
      requires Valid()
      modifies this
      ensures Valid()
      ensures step == NextStep(old(step), name, targetYears)
      ensures step == 3 && old(step) != 3 ==> targetYears != []
      ensures name == old(name) && targetYears == old(targetYears) && schedule == old(schedule)
    {
      StepsStayInRange(step, name, targetYears);
      step := NextStep(step, name, targetYears);
    }

    /** The Back button of step 3. */
    method Back()
      requires Valid()
      modifies this
      ensures Valid() && step == 2
      ensures name == old(name) && targetYears == old(targetYears) && schedule == old(schedule)
    {
      step := 2;
    }

    method ToggleYear(y: int)
      requires Valid()
      modifies this
      ensures Valid()
      ensures targetYears == YearsToggled(old(targetYears), y)
      ensures forall x :: x in targetYears <==> (if x == y then y !in old(targetYears) else x in old(targetYears))
      ensures step == old(step) && name == old(name) && schedule == old(schedule)
    {
      ToggleYearSpec(targetYears, y);
      targetYears := YearsToggled(targetYears, y);
    }

    /** `handleFinish`: saves the profile, then the schedule with undecided phases
        blanked (the store sorts it by start date); `onComplete` is the caller's. */
    method HandleFinish(stamp: string) returns (ghost afterProfile: LocalStorage)
      requires store.Valid()
      modifies store
      ensures store.Valid()
      ensures GetUserProfile(store.data) == FinishProfile(old(name), old(targetYears))
      ensures GetSchedule(store.data) == SortSchedule(BlankUndecided(old(schedule)))
      ensures afterProfile == WithBackup(old(store.data)[ProfileKey := ProfileValue(Stored(FinishProfile(old(name), old(targetYears))))], store.loadedAt, stamp)
      ensures store.data == WithBackup(afterProfile[ScheduleKey := ScheduleValue(SortSchedule(BlankUndecided(old(schedule))))], store.loadedAt, stamp)
    {
      var profile := FinishProfile(name, targetYears);
      var finalSchedule := BlankUndecided(schedule);
      afterProfile := SaveSetup(store, profile, finalSchedule, stamp);
    }

    method UpdatePhase(id: string, e: PhaseEdit)
      modifies this
      ensures schedule == PhasesEdited(old(schedule), id, e)
      ensures step == old(step) && name == old(name) && targetYears == old(targetYears)
    {
      schedule := PhasesEdited(schedule, id, e);
    }

    method AddPhase(now: int)
      modifies this
      ensures schedule == old(schedule) + [CustomPhase(now)]
      ensures step == old(step) && name == old(name) && targetYears == old(targetYears)
    {
      schedule := schedule + [CustomPhase(now)];
    }

    method RemovePhase(id: string)
      modifies this
      ensures schedule == WithoutPhase(old(schedule), id)
      ensures step == old(step) && name == old(name) && targetYears == old(targetYears)
    {
      schedule := WithoutPhase(schedule, id);
    }
  }
}
