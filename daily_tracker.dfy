/** src/components/DailyTracker.tsx: the daily log form, with hours per subject added
    up on the form, and the 365-day consistency heatmap over the stored logs. The clock
    is the `now` parameter; the heatmap takes `dayText`, the day-to-date-string function
    (`DayText()` in the component). */
module DailyTracker {
  import opened Common
  import opened Calendar
  import opened Model
  import opened Storage

  // ---------------------------------------------------------------------------
  // Hours per subject on the form
  // ---------------------------------------------------------------------------

  /** `prev.studyHours?.[subject] || 0`. */
  function HoursFor(d: Dict<Subject, real>, s: Subject): real {
    var v := Lookup(d, s);
    if v.Some? then v.value else 0.0
  }

  /** The `hoursInput` guard: an empty field or a number not above zero is ignored. */
  predicate Ignored(input: Option<real>) {
    input.None? || input.value <= 0.0
  }

  /** The subject's new running total, `(prev.studyHours?.[subject] || 0) + hours`. */
  function NewTotal(d: Dict<Subject, real>, s: Subject, h: real): real {
    HoursFor(d, s) + h
  }

  /** `addSubjectHours`'s new `studyHours`: the subject's running total grows by the
      input; a new subject goes last, every other entry is kept. */
  function WithHours(d: Dict<Subject, real>, s: Subject, input: Option<real>): (r: Dict<Subject, real>)
    ensures Ignored(input) ==> r == d
    ensures !Ignored(input) ==> Lookup(r, s) == Some(NewTotal(d, s, input.value))
    ensures forall k :: k != s ==> Lookup(r, k) == Lookup(d, k)
    ensures UniqueKeys(d) ==> UniqueKeys(r)
  {
    if Ignored(input) then d else Put(d, s, NewTotal(d, s, input.value))
  }

  /** Every logged amount is positive. */
  predicate AllPositive(d: Dict<Subject, real>) {
    forall i :: 0 <= i < |d| ==> d[i].1 > 0.0
  }

  /** `totalHoursToday`. */
  function TotalHours(d: Dict<Subject, real>): real {
    SumValues(d)
  }

  lemma {:induction false} PutSum(d: Dict<Subject, real>, s: Subject, v: real)
    ensures SumValues(Put(d, s, v)) == SumValues(d) - HoursFor(d, s) + v
  {
    if d != [] && d[0].0 != s {
      PutSum(d[1..], s, v);
      assert Put(d, s, v) == [d[0]] + Put(d[1..], s, v);
      assert ([d[0]] + Put(d[1..], s, v))[1..] == Put(d[1..], s, v);
    } else if d != [] {
      assert ([(s, v)] + d[1..])[1..] == d[1..];
    }
  }

  /** Adding hours adds exactly that much to the day's total. */
  lemma TotalAfterAdd(d: Dict<Subject, real>, s: Subject, h: real)
    requires h > 0.0
    ensures TotalHours(WithHours(d, s, Some(h))) == TotalHours(d) + h
  {
    assert WithHours(d, s, Some(h)) == Put(d, s, NewTotal(d, s, h)) by {
      assert !Ignored(Some(h));
    }
    PutSum(d, s, NewTotal(d, s, h));
  }

  lemma {:induction false} RemoveAbsent(d: Dict<Subject, real>, s: Subject)
    requires !HasKey(d, s)
    ensures Remove(d, s) == d
  {
    if d != [] {
      assert d[0].0 != s;
      assert !HasKey(d[1..], s) by {
        forall i | 0 <= i < |d[1..]| ensures d[1..][i].0 != s {
          assert d[1..][i] == d[i + 1];
        }
      }
      RemoveAbsent(d[1..], s);
    }
  }

  lemma {:induction false} RemoveSum(d: Dict<Subject, real>, s: Subject)
    requires UniqueKeys(d)
    ensures SumValues(Remove(d, s)) == SumValues(d) - HoursFor(d, s)
  {
    if d != [] {
      assert UniqueKeys(d[1..]) by {
        forall i, j | 0 <= i < j < |d[1..]| ensures d[1..][i].0 != d[1..][j].0 {
          assert d[1..][i] == d[i + 1] && d[1..][j] == d[j + 1];
        }
      }
      if d[0].0 == s {
        assert !HasKey(d[1..], s) by {
          forall i | 0 <= i < |d[1..]| ensures d[1..][i].0 != s {
            assert d[1..][i] == d[i + 1];
          }
        }
        RemoveAbsent(d[1..], s);
      } else {
        RemoveSum(d[1..], s);
        assert ([d[0]] + Remove(d[1..], s))[1..] == Remove(d[1..], s);
      }
    }
  }

  /** `removeSubjectHours` takes exactly that subject's hours off the day's total. */
  lemma TotalAfterRemove(d: Dict<Subject, real>, s: Subject)
    requires UniqueKeys(d)
    ensures TotalHours(Remove(d, s)) == TotalHours(d) - HoursFor(d, s)
    ensures HoursFor(Remove(d, s), s) == 0.0
  {
    RemoveSum(d, s);
  }

  lemma {:induction false} PositiveSum(d: Dict<Subject, real>)
    requires AllPositive(d)
    ensures SumValues(d) >= 0.0
    ensures SumValues(d) == 0.0 <==> d == []
  {
    if d != [] {
      assert AllPositive(d[1..]) by {
        forall i | 0 <= i < |d[1..]| ensures d[1..][i].1 > 0.0 {
          assert d[1..][i] == d[i + 1];
        }
      }
      PositiveSum(d[1..]);
    }
  }

  /** Adding hours keeps every amount positive. */
  lemma AddKeepsPositive(d: Dict<Subject, real>, s: Subject, input: Option<real>)
    requires AllPositive(d) && UniqueKeys(d)
    ensures AllPositive(WithHours(d, s, input))
  {
    var r := WithHours(d, s, input);
    if !Ignored(input) {
      forall i | 0 <= i < |r| ensures r[i].1 > 0.0 {
        var k := r[i].0;
        assert HasKey(r, k);
        LookupUnique(r, i);
        if k != s {
          var j :| 0 <= j < |d| && d[j] == (k, r[i].1);
        } else {
          if HasKey(d, s) {
            var j :| 0 <= j < |d| && d[j] == (s, HoursFor(d, s));
          }
        }
      }
    }
  }

  /** Removing a subject keeps every other amount positive. */
  lemma RemoveKeepsPositive(d: Dict<Subject, real>, s: Subject)
    requires AllPositive(d)
    ensures AllPositive(Remove(d, s))
  {
    var r := Remove(d, s);
    forall i | 0 <= i < |r| ensures r[i].1 > 0.0 {
      assert r[i] in d;
    }
  }

  // ---------------------------------------------------------------------------
  // The heatmap
  // ---------------------------------------------------------------------------

  function OnDate(date: string): DailyLog -> bool { (l: DailyLog) => l.date == date }

  /** `logs.find(l => l.date === dateStr)`'s hours, or 0 without such a log. */
  function HoursOn(logs: seq<DailyLog>, date: string): (r: real)
    ensures (forall i :: 0 <= i < |logs| ==> logs[i].date != date) ==> r == 0.0
    ensures forall i :: 0 <= i < |logs| && logs[i].date == date && (forall j :: 0 <= j < i ==> logs[j].date != date) ==>
      r == SumValues(logs[i].studyHours)
  {
    var f := FindFirst(logs, OnDate(date));
    assert forall i :: 0 <= i < |logs| ==> (OnDate(date)(logs[i]) <==> logs[i].date == date);
    if f.Some? then SumValues(logs[f.value].studyHours) else 0.0
  }

  /** The five colour bands. */
  datatype Shade = NoActivity | Light | Medium | Strong | Brightest

  function Level(s: Shade): nat {
    match s
    case NoActivity => 0
    case Light => 1
    case Medium => 2
    case Strong => 3
    case Brightest => 4
  }

  /** The class string of each band. */
  function ColorClass(s: Shade): string {
    match s
    case NoActivity => "bg-gate-800 border-gate-700"
    case Light => "bg-green-900 border-green-800"
    case Medium => "bg-green-700 border-green-600"
    case Strong => "bg-green-500 border-green-400"
    case Brightest => "bg-green-400 border-white shadow-[0_0_5px_#4ade80]"
  }

  /** The colour of a day, as the chain of `if`s leaves it. */
  function ShadeOf(h: real): Shade {
    if h > 8.0 then Brightest
    else if h > 5.0 then Strong
    else if h > 2.0 then Medium
    else if h > 0.0 then Light
    else NoActivity
  }

  /** The bands are 0, (0, 2], (2, 5], (5, 8] and above 8 hours, and more hours never
      give a paler colour. */
  lemma ShadeBands(h: real, h': real)
    ensures Level(ShadeOf(h)) == 0 <==> h <= 0.0
    ensures Level(ShadeOf(h)) == 1 <==> 0.0 < h <= 2.0
    ensures Level(ShadeOf(h)) == 2 <==> 2.0 < h <= 5.0
    ensures Level(ShadeOf(h)) == 3 <==> 5.0 < h <= 8.0
    ensures Level(ShadeOf(h)) == 4 <==> h > 8.0
    ensures h <= h' ==> Level(ShadeOf(h)) <= Level(ShadeOf(h'))
  {
  }

  datatype HeatCell = HeatCell(date: string, hours: real, shade: Shade)

  /** The cell of one date. */
  function CellFor(logs: seq<DailyLog>, date: string): HeatCell {
    HeatCell(date, HoursOn(logs, date), ShadeOf(HoursOn(logs, date)))
  }

  /** `generateHeatmap`: 365 cells, from 364 days before today up to today, in that
      order. */
  method GenerateHeatmap(logs: seq<DailyLog>, today: int, dayText: int -> string) returns (days: seq<HeatCell>)
    ensures |days| == 365
    ensures forall k :: 0 <= k < 365 ==> days[k] == CellFor(logs, dayText(today - 364 + k))
  {
    days := [];
    var i := 364;
    while i >= 0
      invariant -1 <= i <= 364
      invariant |days| == 364 - i
      invariant forall k :: 0 <= k < |days| ==> days[k] == CellFor(logs, dayText(today - 364 + k))
    {
      var dateStr := dayText(today - i);
      var f := FindFirst(logs, OnDate(dateStr));
      var totalHrs := if f.Some? then SumValues(logs[f.value].studyHours) else 0.0;
      var shade := NoActivity;
      if totalHrs > 0.0 { shade := Light; }
      if totalHrs > 2.0 { shade := Medium; }
      if totalHrs > 5.0 { shade := Strong; }
      if totalHrs > 8.0 { shade := Brightest; }
      days := days + [HeatCell(dateStr, totalHrs, shade)];
      i := i - 1;
    }
  }

  // ---------------------------------------------------------------------------
  // The form
  // ---------------------------------------------------------------------------

  datatype Form = Form(
    date: string, studyHours: Dict<Subject, real>, topicsCovered: seq<string>,
    practiceQuestions: int, practiceCorrect: int, revisionDone: bool, focusLevel: int,
    weakestConcept: string)

  /** The form's initial value, dated today. */
  function InitialForm(today: string): Form {
    Form(today, [], [], 0, 0, false, 3, "")
  }

  /** The edits the form's controls make. */
  datatype FormEdit =
    | SetDate(date: string)
    | SetRevisionDone(done: bool)
    | SetPracticeQuestions(questions: int)
    | SetPracticeCorrect(correct: int)
    | SetFocusLevel(level: int)
    | SetWeakestConcept(concept: string)

  function Edited(f: Form, e: FormEdit): (r: Form)
    ensures r.studyHours == f.studyHours && r.topicsCovered == f.topicsCovered
  {
    match e
    case SetDate(d) => f.(date := d)
    case SetRevisionDone(b) => f.(revisionDone := b)
    case SetPracticeQuestions(n) => f.(practiceQuestions := n)
    case SetPracticeCorrect(n) => f.(practiceCorrect := n)
    case SetFocusLevel(n) => f.(focusLevel := n)
    case SetWeakestConcept(c) => f.(weakestConcept := c)
  }

  /** `handleSubmit`'s new log, with id `Date.now().toString()`. */
  function NewLog(f: Form, now: int): (l: DailyLog)
    ensures l.date == f.date && l.studyHours == f.studyHours && l.weakestConcept == f.weakestConcept
    ensures l.id == IntString(now)
  {
    DailyLog(IntString(now), f.date, f.studyHours, f.topicsCovered, f.practiceQuestions,
             f.practiceCorrect, f.revisionDone, f.focusLevel, f.weakestConcept)
  }

  /** After a submission the heatmap shows the form's total on the form's date. */
  lemma SubmittedDayShows(logs: seq<DailyLog>, f: Form, now: int)
    ensures HoursOn(PrependLog(logs, NewLog(f, now)), f.date) == TotalHours(f.studyHours)
  {
  }

  class Tracker {
    var logs: seq<DailyLog>
    var form: Form
    var subjectInput: Subject
    var hoursInput: Option<real>
    const store: Store

    /** The form's hours: one entry per subject, each positive. */
    ghost predicate Valid()
      reads this
    {
      UniqueKeys(form.studyHours) && AllPositive(form.studyHours)
    }

    /** The initial state and the mount effect, which reads the stored logs. */
    constructor (store: Store, now: int)
      ensures Valid() && this.store == store
      ensures logs == GetDailyLogs(store.data) && form == InitialForm(Today(now))
      ensures subjectInput == CN && hoursInput == None
    {
      this.store := store;
      logs := GetDailyLogs(store.data);
      form := InitialForm(Today(now));
      subjectInput := CN;
      hoursInput := None;
    }

    method EditForm(e: FormEdit)
      requires Valid()
      modifies this
      ensures Valid()
      ensures form == Edited(old(form), e)
      ensures logs == old(logs) && subjectInput == old(subjectInput) && hoursInput == old(hoursInput)
    {
      form := Edited(form, e);
    }

    /** The subject select and the hours field; the number field holds either nothing
        or a number. */
    method SetInputs(s: Subject, hours: Option<real>)
      modifies this
      ensures subjectInput == s && hoursInput == hours
      ensures logs == old(logs) && form == old(form)
    {
      subjectInput := s;
      hoursInput := hours;
    }

    /** `addSubjectHours`; the field is cleared only when hours were added. */
    method AddSubjectHours()
      requires Valid()
      modifies this
      ensures Valid()
      ensures form == old(form).(studyHours := WithHours(old(form.studyHours), subjectInput, old(hoursInput)))
      ensures hoursInput == if Ignored(old(hoursInput)) then old(hoursInput) else None
      ensures logs == old(logs) && subjectInput == old(subjectInput)
    {
      var hours := WithHours(form.studyHours, subjectInput, hoursInput);
      AddKeepsPositive(form.studyHours, subjectInput, hoursInput);
      if !Ignored(hoursInput) {
        form := form.(studyHours := hours);
        hoursInput := None;
      } else {
        assert form == form.(studyHours := hours);
      }
    }

    method RemoveSubjectHours(s: Subject)
      requires Valid()
      modifies this
      ensures Valid()
      ensures form == old(form).(studyHours := Remove(old(form.studyHours), s))
      ensures logs == old(logs) && subjectInput == old(subjectInput) && hoursInput == old(hoursInput)
    {
      RemoveKeepsPositive(form.studyHours, s);
      form := form.(studyHours := Remove(form.studyHours, s));
    }

    /** `handleSubmit`: without a weakest concept nothing happens; otherwise the log is
        saved (replacing any log of that date) and the list reloaded. */
    method HandleSubmit(now: int, stamp: string)
      requires store.Valid()
      modifies this, store
      ensures store.Valid()
      ensures old(form).weakestConcept == "" ==> store.data == old(store.data) && logs == old(logs)
      ensures old(form).weakestConcept != "" ==>
        store.data == WithBackup(old(store.data)[DailyKey := DailyValue(PrependLog(GetDailyLogs(old(store.data)), NewLog(old(form), now)))], store.loadedAt, stamp) &&
        logs == PrependLog(GetDailyLogs(old(store.data)), NewLog(old(form), now))
      ensures form == old(form) && subjectInput == old(subjectInput) && hoursInput == old(hoursInput)
    {
      if form.weakestConcept != "" {
        store.SaveDailyLog(NewLog(form, now), stamp);
        logs := GetDailyLogs(store.data);
      }
    }

    /** `totalHoursToday`: never negative, and zero exactly when no hours are on the form. */
    function TotalHoursToday(): (r: real)
      requires Valid()
      reads this
      ensures r >= 0.0 && (r == 0.0 <==> form.studyHours == [])
    {
      PositiveSum(form.studyHours);
      TotalHours(form.studyHours)
    }
  }
}
