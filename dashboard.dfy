/** src/components/Dashboard.tsx: the two daily directives, the insight messages and the
    score trajectory with an optional "ghost" run to race against. */
module Dashboard {
  import opened Common
  import opened Calendar
  import opened Model
  import opened Storage
  import opened SubjectYield
  import opened MockTracker

  // ---------------------------------------------------------------------------
  // generateObjectives
  // ---------------------------------------------------------------------------

  datatype Objective = Objective(text: string, color: string)

  const LogToday := Objective("Log today's protocol", "bg-yellow-500")
  const KeepStreak := Objective("Maintain Streak Tomorrow", "bg-green-500")
  const TakeMock := Objective("Take a Diagnostic Mock", "bg-blue-500")

  function FixLeaks(s: Subject): Objective {
    Objective("Fix Leaks: " + Name(s), "bg-red-500")
  }

  /** `logs.some(l => l.date === today)`. */
  predicate HasLogged(logs: seq<DailyLog>, today: string) {
    exists i :: 0 <= i < |logs| && logs[i].date == today
  }

  /** The keys of a dictionary, in entry order (`Object.entries(...).map(e => e[0])`). */
  function Keys<K, V>(d: Dict<K, V>): (r: seq<K>)
    ensures |r| == |d|
    ensures forall i :: 0 <= i < |d| ==> r[i] == d[i].0
  {
    if d == [] then [] else [d[0].0] + Keys(d[1..])
  }

  /** The subjects of `errs` in the order of their first mistake. */
  function FirstAppearances(errs: seq<ErrorEntry>): seq<Subject> {
    if errs == [] then []
    else
      var f := FirstAppearances(errs[..|errs| - 1]);
      if errs[|errs| - 1].subject in f then f else f + [errs[|errs| - 1].subject]
  }

  predicate Distinct<T(==)>(s: seq<T>) {
    forall i, j :: 0 <= i < j < |s| ==> s[i] != s[j]
  }

  /** The first appearances list every subject with a mistake, once each. */
  lemma {:induction false} FirstAppearancesSpec(errs: seq<ErrorEntry>)
    ensures Distinct(FirstAppearances(errs))
    ensures forall s :: s in FirstAppearances(errs) <==> ErrorsOf(errs, s) > 0
  {
    if errs != [] {
      FirstAppearancesSpec(errs[..|errs| - 1]);
    }
  }

  /** `counts[s]` when the counts are right for `errs`. */
  function CountOf(errs: seq<ErrorEntry>, s: Subject): Option<int> {
    if ErrorsOf(errs, s) > 0 then Some(ErrorsOf(errs, s) as int) else None
  }

  /** `counts` is exactly the count dictionary of `errs`. */
  predicate CountsFor(counts: Dict<Subject, int>, errs: seq<ErrorEntry>) {
    UniqueKeys(counts) && Keys(counts) == FirstAppearances(errs) &&
    forall s :: Lookup(counts, s) == CountOf(errs, s)
  }

  /** `counts[s] || 0`. */
  function Current(counts: Dict<Subject, int>, s: Subject): int {
    match Lookup(counts, s) case Some(v) => v case None => 0
  }

  /** One step of the counting loop keeps the counts right. */
  lemma CountStep(counts: Dict<Subject, int>, pre: seq<ErrorEntry>, e: ErrorEntry, n: int)
    requires CountsFor(counts, pre)
    requires n == Current(counts, e.subject)
    ensures CountsFor(Put(counts, e.subject, n + 1), pre + [e])
  {
    KeysStep(counts, pre, e, n + 1);
    forall s ensures Lookup(Put(counts, e.subject, n + 1), s) == CountOf(pre + [e], s) {
      LookupStep(counts, pre, e, n, s);
    }
  }

  lemma LookupStep(counts: Dict<Subject, int>, pre: seq<ErrorEntry>, e: ErrorEntry, n: int, s: Subject)
    requires Lookup(counts, s) == CountOf(pre, s) && Lookup(counts, e.subject) == CountOf(pre, e.subject)
    requires n == Current(counts, e.subject)
    ensures Lookup(Put(counts, e.subject, n + 1), s) == CountOf(pre + [e], s)
  {
    ErrorsOfSnoc(pre, e, s);
    if s == e.subject {
      LookupHit(counts, s, n, ErrorsOf(pre, s), ErrorsOf(pre + [e], s));
    } else {
      LookupMiss(counts, e.subject, n + 1, s);
    }
  }

  /** The subject just counted has one more mistake. */
  lemma LookupHit(counts: Dict<Subject, int>, k: Subject, n: int, before: nat, after: nat)
    requires Lookup(counts, k) == (if before > 0 then Some(before as int) else None)
    requires n == Current(counts, k) && after == before + 1
    ensures Lookup(Put(counts, k, n + 1), k) == Some(after as int)
  {
  }

  /** Every other subject keeps its count. */
  lemma LookupMiss(counts: Dict<Subject, int>, k: Subject, v: int, s: Subject)
    requires s != k
    ensures Lookup(Put(counts, k, v), s) == Lookup(counts, s)
  {
  }

  lemma ErrorsOfSnoc(pre: seq<ErrorEntry>, e: ErrorEntry, s: Subject)
    ensures ErrorsOf(pre + [e], s) == ErrorsOf(pre, s) + (if e.subject == s then 1 else 0)
  {
    var errs := pre + [e];
    assert errs[..|errs| - 1] == pre;
  }

  /** The keys after one step: a new subject is appended, a known one stays put. */
  lemma KeysStep(counts: Dict<Subject, int>, pre: seq<ErrorEntry>, e: ErrorEntry, v: int)
    requires UniqueKeys(counts) && Keys(counts) == FirstAppearances(pre)
    ensures Keys(Put(counts, e.subject, v)) == FirstAppearances(pre + [e])
  {
    var errs := pre + [e];
    assert errs[..|errs| - 1] == pre && errs[|errs| - 1] == e;
    var c := Put(counts, e.subject, v);
    if HasKey(counts, e.subject) {
      PutKeepsKeys(counts, e.subject, v);
      var i :| 0 <= i < |counts| && counts[i].0 == e.subject;
      assert Keys(counts)[i] == e.subject;
      SameKeys(c, counts);
    } else {
      KeysAppend(counts, (e.subject, v));
      assert e.subject !in Keys(counts);
    }
  }

  lemma SameKeys<K, V>(a: Dict<K, V>, b: Dict<K, V>)
    requires |a| == |b| && forall i :: 0 <= i < |a| ==> a[i].0 == b[i].0
    ensures Keys(a) == Keys(b)
  {
    assert forall i :: 0 <= i < |a| ==> Keys(a)[i] == Keys(b)[i];
  }

  lemma KeysAppend<K, V>(d: Dict<K, V>, x: (K, V))
    ensures Keys(d + [x]) == Keys(d) + [x.0]
  {
    assert forall i :: 0 <= i < |d| ==> Keys(d + [x])[i] == (d + [x])[i].0 == d[i].0;
  }

  /** `errs.forEach(e => counts[e.subject] = (counts[e.subject] || 0) + 1)`: one entry per
      subject with a mistake, in the order of its first mistake, holding its count. */
  method CountBySubject(errs: seq<ErrorEntry>) returns (counts: Dict<Subject, int>)
    ensures UniqueKeys(counts)
    ensures Keys(counts) == FirstAppearances(errs)
    ensures forall s :: Lookup(counts, s) == CountOf(errs, s)
  {
    counts := [];
    var i := 0;
    while i < |errs|
      invariant 0 <= i <= |errs|
      invariant CountsFor(counts, errs[..i])
    {
      var e := errs[i];
      var n := Current(counts, e.subject);
      CountStep(counts, errs[..i], e, n);
      TakeOneMore(errs, i);
      counts := Put(counts, e.subject, n + 1);
      i := i + 1;
    }
    assert errs[..|errs|] == errs;
  }

  /** `.sort((a, b) => b[1] - a[1])`: ascending by minus the count. */
  function ByCount(): ((Subject, int)) -> real { (p: (Subject, int)) => -(p.1 as real) }

  /** `w` is the subject the sort puts first: it has the most mistakes, and every subject
      whose first mistake came earlier has strictly fewer. */
  ghost predicate IsWorst(errs: seq<ErrorEntry>, w: Subject) {
    ErrorsOf(errs, w) > 0 &&
    (forall s :: ErrorsOf(errs, s) <= ErrorsOf(errs, w)) &&
    (forall j, k :: 0 <= j < k < |FirstAppearances(errs)| && FirstAppearances(errs)[k] == w ==>
       ErrorsOf(errs, FirstAppearances(errs)[j]) < ErrorsOf(errs, w))
  }

  /** There is only one worst subject. */
  lemma WorstUnique(errs: seq<ErrorEntry>, v: Subject, w: Subject)
    requires IsWorst(errs, v) && IsWorst(errs, w)
    ensures v == w
  {
    var fa := FirstAppearances(errs);
    FirstAppearancesSpec(errs);
    var i :| 0 <= i < |fa| && fa[i] == v;
    var k :| 0 <= k < |fa| && fa[k] == w;
  }

  /** `Object.entries(counts).sort(...)[0][0]` is the worst subject. */
  lemma SortedFirstIsWorst(errs: seq<ErrorEntry>, counts: Dict<Subject, int>)
    requires errs != [] && UniqueKeys(counts)
    requires Keys(counts) == FirstAppearances(errs)
    requires forall s :: Lookup(counts, s) == if ErrorsOf(errs, s) > 0 then Some(ErrorsOf(errs, s) as int) else None
    ensures counts != [] && IsWorst(errs, SortByKey(counts, ByCount())[0].0)
  {
    FirstAppearancesSpec(errs);
    assert ErrorsOf(errs, errs[|errs| - 1].subject) > 0;
    assert counts != [] by {
      assert errs[|errs| - 1].subject in Keys(counts);
    }
    SortHead(counts, ByCount());
    var m := FirstMin(counts, ByCount());
    var w := counts[m].0;
    assert SortByKey(counts, ByCount())[0].0 == w;
    LookupUnique(counts, m);
    assert counts[m].1 == ErrorsOf(errs, w) as int;
    forall s ensures ErrorsOf(errs, s) <= ErrorsOf(errs, w) {
      if ErrorsOf(errs, s) > 0 {
        var j :| 0 <= j < |counts| && counts[j] == (s, Lookup(counts, s).value);
        assert ByCount()(counts[m]) <= ByCount()(counts[j]);
      }
    }
    var fa := FirstAppearances(errs);
    forall j, k | 0 <= j < k < |fa| && fa[k] == w ensures ErrorsOf(errs, fa[j]) < ErrorsOf(errs, w) {
      assert fa[k] == counts[k].0;
      assert k == m;
      LookupUnique(counts, j);
      assert ByCount()(counts[m]) < ByCount()(counts[j]);
    }
  }

  /** `generateObjectives`: always two directives. The first asks for today's log until
      one is dated today; the second names the worst subject when any mistake is
      logged, and otherwise asks for a diagnostic mock. */
  method GenerateObjectives(logs: seq<DailyLog>, errs: seq<ErrorEntry>, today: string) returns (objs: seq<Objective>)
    ensures |objs| == 2
    ensures objs[0] == if HasLogged(logs, today) then KeepStreak else LogToday
    ensures errs == [] ==> objs[1] == TakeMock
    ensures errs != [] ==> exists w :: IsWorst(errs, w) && objs[1] == FixLeaks(w)
  {
    objs := [];
    if !HasLogged(logs, today) {
      objs := objs + [LogToday];
    } else {
      objs := objs + [KeepStreak];
    }
    if |errs| > 0 {
      var counts := CountBySubject(errs);
      SortedFirstIsWorst(errs, counts);
      var worst := SortByKey(counts, ByCount())[0].0;
      objs := objs + [FixLeaks(worst)];
    } else {
      objs := objs + [TakeMock];
    }
  }

  // ---------------------------------------------------------------------------
  // generateLocalInsights
  // ---------------------------------------------------------------------------

  const Critical := "CRITICAL: Accuracy below 75%. Negative marks are bleeding your rank."
  const Habit := "HABIT ALERT: Daily revision skipped."
  const Steady := "STATUS: Steady trajectory. No critical leakage detected."

  predicate CriticalFires(m: seq<MockTest>) {
    m != [] && Accuracy(m[0]) < 75.0
  }

  predicate HabitFires(d: seq<DailyLog>, today: string) {
    d != [] && d[0].date == today && !d[0].revisionDone
  }

  /** `generateLocalInsights`: "Critical" exactly when the newest mock's accuracy is below
      75 (no attempts counting as 0), "Habit" exactly when the newest log is today's and
      skipped revision, "Steady" exactly when neither fired and a mock exists; the
      messages come in that order. */
  method GenerateInsights(m: seq<MockTest>, d: seq<DailyLog>, today: string) returns (insights: seq<string>)
    ensures Critical in insights <==> CriticalFires(m)
    ensures Habit in insights <==> HabitFires(d, today)
    ensures Steady in insights <==> !CriticalFires(m) && !HabitFires(d, today) && m != []
    ensures forall i :: 0 <= i < |insights| ==> insights[i] == Critical || insights[i] == Habit || insights[i] == Steady
    ensures Distinct(insights)
    ensures CriticalFires(m) ==> insights[0] == Critical
  {
    insights := [];
    if |m| > 0 {
      var lastMock := m[0];
      var acc := Accuracy(lastMock);
      if acc < 75.0 {
        insights := insights + [Critical];
      }
    }
    if |d| > 0 {
      var lastLog := d[0];
      if lastLog.date == today && !lastLog.revisionDone {
        insights := insights + [Habit];
      }
    }
    if |insights| == 0 && |m| > 0 {
      insights := insights + [Steady];
    }
    assert Critical != Habit && Critical != Steady && Habit != Steady by {
      assert |Critical| != |Habit| && |Critical| != |Steady| && |Habit| != |Steady|;
    }
  }

  // ---------------------------------------------------------------------------
  // The score trajectory
  // ---------------------------------------------------------------------------

  datatype GhostPoint = GhostPoint(name: string, score: real)

  datatype Ghost = Ghost(name: string, chartData: seq<GhostPoint>)

  datatype ChartPoint = ChartPoint(name: string, score: real, ghostScore: Option<real>)

  /** `date.slice(5)`: the date without its year. */
  function DateLabel(date: string): string {
    if |date| >= 5 then date[5..] else ""
  }

  /** The ghost file's `mocks.slice().reverse().map(...)`. */
  function GhostPoints(mocks: seq<MockTest>): (r: seq<GhostPoint>)
    ensures |r| == |mocks|
    ensures forall i :: 0 <= i < |r| ==> r[i] == GhostPoint(DateLabel(mocks[|mocks| - 1 - i].date), mocks[|mocks| - 1 - i].score)
  {
    if mocks == [] then [] else GhostPoints(mocks[1..]) + [GhostPoint(DateLabel(mocks[0].date), mocks[0].score)]
  }

  /** The ghost run at the chart's index `i`, if it reaches that far. */
  function GhostAt(ghostRun: Option<Ghost>, i: nat): Option<real> {
    if ghostRun.Some? && i < |ghostRun.value.chartData| then Some(ghostRun.value.chartData[i].score) else None
  }

  /** `chartData`: the mocks oldest first (the stored list is newest first), each with its
      date label and score, and the ghost run's score at the same index when there is one. */
  function ChartData(mocks: seq<MockTest>, ghostRun: Option<Ghost>): (r: seq<ChartPoint>)
    ensures |r| == |mocks|
    ensures forall i :: 0 <= i < |r| ==>
      r[i] == ChartPoint(DateLabel(mocks[|mocks| - 1 - i].date), mocks[|mocks| - 1 - i].score, GhostAt(ghostRun, i))
  {
    seq(|mocks|, i requires 0 <= i < |mocks| =>
      ChartPoint(DateLabel(mocks[|mocks| - 1 - i].date), mocks[|mocks| - 1 - i].score, GhostAt(ghostRun, i)))
  }

  /** A newly logged mock (saved at the front) becomes the last point of the chart, and the
      older points stay. */
  lemma NewMockPlottedLast(m: MockTest, mocks: seq<MockTest>, ghostRun: Option<Ghost>)
    ensures ChartData([m] + mocks, ghostRun)[..|mocks|] == ChartData(mocks, ghostRun)
    ensures ChartData([m] + mocks, ghostRun)[|mocks|] == ChartPoint(DateLabel(m.date), m.score, GhostAt(ghostRun, |mocks|))
  {
    var a := ChartData([m] + mocks, ghostRun);
    var b := ChartData(mocks, ghostRun);
    forall i | 0 <= i < |mocks| ensures a[i] == b[i] {
      assert ([m] + mocks)[|mocks| - i] == mocks[|mocks| - 1 - i];
    }
  }

  /** Racing one's own exported data: the ghost line lies exactly on the score line. */
  lemma GhostOfSelf(mocks: seq<MockTest>, name: string)
    ensures forall p :: p in ChartData(mocks, Some(Ghost(name, GhostPoints(mocks)))) ==> p.ghostScore == Some(p.score)
  {
    var c := ChartData(mocks, Some(Ghost(name, GhostPoints(mocks))));
    forall p | p in c ensures p.ghostScore == Some(p.score) {
      var i :| 0 <= i < |c| && c[i] == p;
      assert GhostPoints(mocks)[i].score == mocks[|mocks| - 1 - i].score;
    }
  }

  // ---------------------------------------------------------------------------
  // The page
  // ---------------------------------------------------------------------------

  /** The insight messages `generateLocalInsights` promises for these lists and day. */
  predicate InsightsFor(insights: seq<string>, m: seq<MockTest>, d: seq<DailyLog>, today: string) {
    (Critical in insights <==> CriticalFires(m)) &&
    (Habit in insights <==> HabitFires(d, today)) &&
    (Steady in insights <==> !CriticalFires(m) && !HabitFires(d, today) && m != [])
  }

  /** The two directives `generateObjectives` promises for these lists and day. */
  ghost predicate ObjectivesFor(objs: seq<Objective>, logs: seq<DailyLog>, errs: seq<ErrorEntry>, today: string) {
    |objs| == 2 &&
    objs[0] == (if HasLogged(logs, today) then KeepStreak else LogToday) &&
    (errs == [] ==> objs[1] == TakeMock) &&
    (errs != [] ==> exists w :: IsWorst(errs, w) && objs[1] == FixLeaks(w))
  }

  class Board {
    var mocks: seq<MockTest>
    var errors: seq<ErrorEntry>
    var dailyLogs: seq<DailyLog>
    var insights: seq<string>
    var ghostRun: Option<Ghost>
    var objectives: seq<Objective>

    /** The mount effect: load the three lists, then compute the insights and the
        directives for `today`, the UTC day of the clock (`Today(now)`). */
    constructor (s: LocalStorage, today: string)
      ensures mocks == GetMocks(s) && errors == GetErrors(s) && dailyLogs == GetDailyLogs(s) && ghostRun.None?
      ensures InsightsFor(insights, mocks, dailyLogs, today)
      ensures ObjectivesFor(objectives, dailyLogs, errors, today)
    {
      var loadedMocks := GetMocks(s);
      var loadedErrors := GetErrors(s);
      var loadedLogs := GetDailyLogs(s);
      mocks := loadedMocks;
      errors := loadedErrors;
      dailyLogs := loadedLogs;
      ghostRun := None;
      var newInsights := GenerateInsights(loadedMocks, loadedLogs, today);
      var objs := GenerateObjectives(loadedLogs, loadedErrors, today);
      assert InsightsFor(newInsights, loadedMocks, loadedLogs, today);
      assert ObjectivesFor(objs, loadedLogs, loadedErrors, today);
      insights := newInsights;
      objectives := objs;
    }

    /** `handleGhostUpload` on a parsed file: a file with mock entries becomes the ghost run;
        one without leaves the ghost run as it was. */
    method UploadGhost(fileMocks: Option<seq<MockTest>>)
      modifies this
      ensures fileMocks.Some? ==> ghostRun == Some(Ghost("Friend's Ghost", GhostPoints(fileMocks.value)))
      ensures fileMocks.None? ==> ghostRun == old(ghostRun)
      ensures mocks == old(mocks) && insights == old(insights) && objectives == old(objectives)
      ensures errors == old(errors) && dailyLogs == old(dailyLogs)
    {
      if fileMocks.Some? {
        ghostRun := Some(Ghost("Friend's Ghost", GhostPoints(fileMocks.value)));
      }
    }

    /** The "Remove Ghost" button. */
    method RemoveGhost()
      modifies this
      ensures ghostRun.None? && mocks == old(mocks) && insights == old(insights) && objectives == old(objectives)
      ensures errors == old(errors) && dailyLogs == old(dailyLogs)
    {
      ghostRun := None;
    }

    function Chart(): seq<ChartPoint>
      reads this
    {
      ChartData(mocks, ghostRun)
    }
  }
}
