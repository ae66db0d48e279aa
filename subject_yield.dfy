/** src/components/SubjectYield.tsx: hours studied and mistakes logged per subject, one
    row per subject ordered by hours, and the "time sink" subjects with many hours and
    many mistakes. */
module SubjectYield {
  import opened Common
  import opened Model
  import opened Storage

  // ---------------------------------------------------------------------------
  // Specification of the two totals
  // ---------------------------------------------------------------------------

  /** `d[s] || 0` on the accumulating dictionaries. */
  function HoursIn(m: map<Subject, real>, s: Subject): real {
    if s in m then m[s] else 0.0
  }

  function CountIn(m: map<Subject, int>, s: Subject): int {
    if s in m then m[s] else 0
  }

  /** The hours the entries of one log give subject `s`. */
  function EntrySum(d: Dict<Subject, real>, s: Subject): real {
    if d == [] then 0.0
    else EntrySum(d[..|d| - 1], s) + (if d[|d| - 1].0 == s then d[|d| - 1].1 else 0.0)
  }

  /** The hours of subject `s` over all logs. */
  function HoursOf(logs: seq<DailyLog>, s: Subject): real {
    if logs == [] then 0.0
    else HoursOf(logs[..|logs| - 1], s) + EntrySum(logs[|logs| - 1].studyHours, s)
  }

  /** The number of mistakes logged against subject `s`. */
  function ErrorsOf(errors: seq<ErrorEntry>, s: Subject): nat {
    if errors == [] then 0
    else ErrorsOf(errors[..|errors| - 1], s) + (if errors[|errors| - 1].subject == s then 1 else 0)
  }

  // ---------------------------------------------------------------------------
  // The two accumulating loops
  // ---------------------------------------------------------------------------

  /** The inner `forEach` over one log's entries. */
  method AddLogHours(acc: map<Subject, real>, d: Dict<Subject, real>) returns (r: map<Subject, real>)
    ensures forall s :: HoursIn(r, s) == HoursIn(acc, s) + EntrySum(d, s)
  {
    r := acc;
    var j := 0;
    while j < |d|
      invariant 0 <= j <= |d|
      invariant forall s :: HoursIn(r, s) == HoursIn(acc, s) + EntrySum(d[..j], s)
    {
      assert d[..j + 1][..j] == d[..j];
      var (subj, hrs) := d[j];
      r := r[subj := HoursIn(r, subj) + hrs];
      j := j + 1;
    }
    assert d[..|d|] == d;
  }

  /** `logs.forEach(...)`: the hours per subject over all logs. */
  method AccumulateHours(logs: seq<DailyLog>) returns (studyHours: map<Subject, real>)
    ensures forall s :: HoursIn(studyHours, s) == HoursOf(logs, s)
  {
    studyHours := map[];
    var i := 0;
    while i < |logs|
      invariant 0 <= i <= |logs|
      invariant forall s :: HoursIn(studyHours, s) == HoursOf(logs[..i], s)
    {
      assert logs[..i + 1][..i] == logs[..i];
      studyHours := AddLogHours(studyHours, logs[i].studyHours);
      i := i + 1;
    }
    assert logs[..|logs|] == logs;
  }

  /** `errors.forEach(...)`: the mistakes per subject. */
  method CountErrors(errors: seq<ErrorEntry>) returns (errorCounts: map<Subject, int>)
    ensures forall s :: CountIn(errorCounts, s) == ErrorsOf(errors, s)
  {
    errorCounts := map[];
    var i := 0;
    while i < |errors|
      invariant 0 <= i <= |errors|
      invariant forall s :: CountIn(errorCounts, s) == ErrorsOf(errors[..i], s)
    {
      assert errors[..i + 1][..i] == errors[..i];
      var subj := errors[i].subject;
      errorCounts := errorCounts[subj := CountIn(errorCounts, subj) + 1];
      i := i + 1;
    }
    assert errors[..|errors|] == errors;
  }

  /** The total of the per-subject counts over `subjects`. */
  function CountsOver(subjects: seq<Subject>, errors: seq<ErrorEntry>): nat {
    if subjects == [] then 0 else ErrorsOf(errors, subjects[0]) + CountsOver(subjects[1..], errors)
  }

  lemma {:induction false} CountsOverStep(subjects: seq<Subject>, errors: seq<ErrorEntry>, e: ErrorEntry)
    ensures CountsOver(subjects, errors + [e]) == CountsOver(subjects, errors) + multiset(subjects)[e.subject]
  {
    if subjects != [] {
      CountsOverStep(subjects[1..], errors, e);
      assert (errors + [e])[..|errors|] == errors;
      assert subjects == [subjects[0]] + subjects[1..];
    }
  }

  /** In a list without repeats an element occurs once if present, else not at all. */
  lemma {:induction false} DistinctCount(q: seq<Subject>, x: Subject)
    requires forall i, j :: 0 <= i < j < |q| ==> q[i] != q[j]
    ensures multiset(q)[x] == if x in q then 1 else 0
  {
    if q != [] {
      assert q == [q[0]] + q[1..];
      DistinctCount(q[1..], x);
      assert q[0] !in q[1..] by {
        forall k | 0 <= k < |q[1..]| ensures q[1..][k] != q[0] {
          assert q[1..][k] == q[k + 1];
        }
      }
    }
  }

  /** The position of a subject in `SUBJECTS`. */
  function Ordinal(s: Subject): (k: nat)
    ensures k < |Subjects| && Subjects[k] == s
  {
    match s
    case CN => 0 case OS => 1 case DBMS => 2 case TOC => 3 case CD => 4 case DLD => 5
    case COA => 6 case DS => 7 case ALGO => 8 case DM => 9 case EM => 10 case GA => 11
  }

  /** No subject is listed twice in `SUBJECTS`: positions are told apart by `Ordinal`. */
  lemma SubjectsDistinct()
    ensures forall i, j :: 0 <= i < j < |Subjects| ==> Subjects[i] != Subjects[j]
  {
    forall i, j | 0 <= i < j < |Subjects| ensures Subjects[i] != Subjects[j] {
      var a, b := Subjects[i], Subjects[j];
      assert Subjects[Ordinal(a)] == a && Subjects[Ordinal(b)] == b;
      assert Ordinal(a) == i && Ordinal(b) == j;
    }
  }

  /** Every subject occurs exactly once in `SUBJECTS`. */
  lemma SubjectsOnce(s: Subject)
    ensures multiset(Subjects)[s] == 1
  {
    SubjectsDistinct();
    DistinctCount(Subjects, s);
    assert Subjects[Ordinal(s)] == s;
  }

  lemma {:induction false} NoErrorsNoCounts(subjects: seq<Subject>)
    ensures CountsOver(subjects, []) == 0
  {
    if subjects != [] {
      NoErrorsNoCounts(subjects[1..]);
    }
  }

  lemma {:induction false} CountsOverOnce(subjects: seq<Subject>, errors: seq<ErrorEntry>)
    requires forall s :: multiset(subjects)[s] == 1
    ensures CountsOver(subjects, errors) == |errors|
  {
    if errors != [] {
      var init := errors[..|errors| - 1];
      var e := errors[|errors| - 1];
      CountsOverOnce(subjects, init);
      CountsOverStep(subjects, init, e);
      assert init + [e] == errors;
    } else {
      NoErrorsNoCounts(subjects);
    }
  }

  /** Each mistake is counted against exactly one subject: the counts over `SUBJECTS`
      add up to the number of mistakes. */
  lemma CountsAddUp(errors: seq<ErrorEntry>)
    ensures CountsOver(Subjects, errors) == |errors|
  {
    forall s ensures multiset(Subjects)[s] == 1 {
      SubjectsOnce(s);
    }
    CountsOverOnce(Subjects, errors);
  }

  // ---------------------------------------------------------------------------
  // Rows
  // ---------------------------------------------------------------------------

  datatype Row = Row(name: Subject, hours: real, errors: int)

  /** `SUBJECTS.map(...)`: one row per subject in the order of `subjects`. */
  function RowsOf(subjects: seq<Subject>, studyHours: map<Subject, real>, errorCounts: map<Subject, int>): (r: seq<Row>)
    ensures |r| == |subjects|
    ensures forall i :: 0 <= i < |r| ==> r[i] == Row(subjects[i], HoursIn(studyHours, subjects[i]), CountIn(errorCounts, subjects[i]))
  {
    if subjects == [] then []
    else [Row(subjects[0], HoursIn(studyHours, subjects[0]), CountIn(errorCounts, subjects[0]))] + RowsOf(subjects[1..], studyHours, errorCounts)
  }

  /** `.sort((a, b) => b.hours - a.hours)`: ascending by minus the hours. */
  function ByHours(): Row -> real { (r: Row) => -r.hours }

  function MergedData(studyHours: map<Subject, real>, errorCounts: map<Subject, int>): seq<Row> {
    SortByKey(RowsOf(Subjects, studyHours, errorCounts), ByHours())
  }

  /** The merged data has a row for every subject, twelve rows in all, with that subject's
      hours and mistakes, in non-increasing order of hours. */
  lemma MergedDataSpec(logs: seq<DailyLog>, errors: seq<ErrorEntry>,
                       studyHours: map<Subject, real>, errorCounts: map<Subject, int>)
    requires forall s :: HoursIn(studyHours, s) == HoursOf(logs, s)
    requires forall s :: CountIn(errorCounts, s) == ErrorsOf(errors, s)
    ensures |MergedData(studyHours, errorCounts)| == |Subjects|
    ensures forall s :: Row(s, HoursOf(logs, s), ErrorsOf(errors, s)) in MergedData(studyHours, errorCounts)
    ensures forall r :: r in MergedData(studyHours, errorCounts) ==>
      r.hours == HoursOf(logs, r.name) && r.errors == ErrorsOf(errors, r.name)
    ensures forall i, j :: 0 <= i < j < |MergedData(studyHours, errorCounts)| ==>
      MergedData(studyHours, errorCounts)[i].hours >= MergedData(studyHours, errorCounts)[j].hours
  {
    var rows := RowsOf(Subjects, studyHours, errorCounts);
    var m := MergedData(studyHours, errorCounts);
    SortByKeySorted(rows, ByHours());
    assert multiset(m) == multiset(rows);
    forall s ensures Row(s, HoursOf(logs, s), ErrorsOf(errors, s)) in m {
      var i := Ordinal(s);
      assert rows[i] == Row(s, HoursOf(logs, s), ErrorsOf(errors, s));
      assert rows[i] in multiset(m);
    }
    forall r | r in m ensures r.hours == HoursOf(logs, r.name) && r.errors == ErrorsOf(errors, r.name) {
      assert r in multiset(rows);
    }
    forall i, j | 0 <= i < j < |m| ensures m[i].hours >= m[j].hours {
      assert ByHours()(m[i]) <= ByHours()(m[j]);
    }
  }

  /** The time-sink test. */
  predicate IsTimeSink(r: Row) {
    r.hours > 10.0 && r.errors > 5
  }

  function SinkTest(): Row -> bool { (r: Row) => IsTimeSink(r) }

  /** `data.filter(d => d.hours > 10 && d.errors > 5)`: exactly the rows with more than
      ten hours and more than five mistakes. */
  function TimeSinks(data: seq<Row>): (r: seq<Row>)
    ensures forall x :: x in r <==> x in data && x.hours > 10.0 && x.errors > 5
  {
    var f := Filter(data, SinkTest());
    assert forall x :: x in data && IsTimeSink(x) ==> x in f by {
      forall x | x in data && IsTimeSink(x) ensures x in f {
        var i :| 0 <= i < |data| && data[i] == x;
        assert SinkTest()(data[i]);
      }
    }
    assert forall x :: x in f ==> IsTimeSink(x) by {
      forall x | x in f ensures IsTimeSink(x) {
        var i :| 0 <= i < |f| && f[i] == x;
        assert SinkTest()(f[i]);
      }
    }
    f
  }

  /** The mount effect: read the logs and the mistakes, total them per subject and
      build the ordered rows. */
  method LoadData(s: LocalStorage) returns (data: seq<Row>)
    ensures |data| == |Subjects|
    ensures forall subj :: Row(subj, HoursOf(GetDailyLogs(s), subj), ErrorsOf(GetErrors(s), subj)) in data
    ensures forall r :: r in data ==> r.hours == HoursOf(GetDailyLogs(s), r.name) && r.errors == ErrorsOf(GetErrors(s), r.name)
    ensures forall i, j :: 0 <= i < j < |data| ==> data[i].hours >= data[j].hours
  {
    var logs := GetDailyLogs(s);
    var errors := GetErrors(s);
    var studyHours := AccumulateHours(logs);
    var errorCounts := CountErrors(errors);
    MergedDataSpec(logs, errors, studyHours, errorCounts);
    data := MergedData(studyHours, errorCounts);
  }
}
