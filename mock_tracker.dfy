/** src/components/MockTracker.tsx: logging mock tests and the per-test analysis row
    (accuracy, estimated negative marks, minutes per question and the verdict badges).
    The clock is the `now` parameter. */
module MockTracker {
  import opened Common
  import opened Calendar
  import opened Model
  import opened Storage

  // ---------------------------------------------------------------------------
  // getAnalysis
  // ---------------------------------------------------------------------------

  /** `(correct / total) * 100`, or 0 without attempts. */
  function Accuracy(m: MockTest): (r: real)
    ensures m.totalAttempts <= 0 ==> r == 0.0
    ensures m.totalAttempts > 0 ==> r * (m.totalAttempts as real) == 100.0 * (m.correctAttempts as real)
  {
    if m.totalAttempts > 0 then (m.correctAttempts as real / m.totalAttempts as real) * 100.0 else 0.0
  }

  /** `wrongAttempts * AVG_NEGATIVE_FACTOR`. */
  function EstimatedNegatives(m: MockTest): real {
    m.wrongAttempts as real * AvgNegativeFactor
  }

  /** `timeSpentMinutes || 180`. */
  function TimeSpent(m: MockTest): (r: real)
    ensures r != 0.0
  {
    if m.timeSpentMinutes == 0.0 then 180.0 else m.timeSpentMinutes
  }

  /** `Number(x.toFixed(1))` in tenths: the nearest number of tenths, halves rounded
      away from zero. */
  function Tenths(x: real): (n: int)
    ensures -0.5 <= (n as real) - 10.0 * x <= 0.5
    ensures x >= 0.0 ==> -0.5 < (n as real) - 10.0 * x
  {
    if x >= 0.0 then (10.0 * x + 0.5).Floor else -((-10.0 * x + 0.5).Floor)
  }

  /** `timePerQ` in tenths of a minute: "0" without attempts. */
  function TimePerQTenths(m: MockTest): int {
    if m.totalAttempts > 0 then Tenths(TimeSpent(m) / m.totalAttempts as real) else 0
  }

  datatype Analysis = Analysis(accuracy: real, estimatedNegatives: real, timePerQTenths: int)

  function GetAnalysis(m: MockTest): Analysis {
    Analysis(Accuracy(m), EstimatedNegatives(m), TimePerQTenths(m))
  }

  // ---------------------------------------------------------------------------
  // Verdict badges
  // ---------------------------------------------------------------------------

  predicate HighError(m: MockTest) { Accuracy(m) < 75.0 }
  predicate Slow(m: MockTest) { TimePerQTenths(m) > 35 }
  predicate Solid(m: MockTest) { Accuracy(m) >= 85.0 }
  predicate Dash(m: MockTest) { 75.0 <= Accuracy(m) < 85.0 && !Slow(m) }

  /** "High Error" and "Solid" never appear together, the dash only when no badge
      does, and every row shows at least one of the four. */
  lemma BadgesCover(m: MockTest)
    ensures !(HighError(m) && Solid(m))
    ensures Dash(m) <==> !HighError(m) && !Solid(m) && !Slow(m)
    ensures HighError(m) || Solid(m) || Slow(m) || Dash(m)
  {
  }

  /** With attempts, "High Error" means fewer than three correct answers in four. */
  lemma HighErrorMeansFewCorrect(m: MockTest)
    requires m.totalAttempts > 0
    ensures HighError(m) <==> 4 * m.correctAttempts < 3 * m.totalAttempts
  {
    var t := m.totalAttempts as real;
    var c := m.correctAttempts as real;
    var a := Accuracy(m);
    assert a * t == 100.0 * c;
    ScaleLess(a, 75.0, t);
    assert HighError(m) <==> 100.0 * c < 75.0 * t;
    assert 100.0 * c < 75.0 * t <==> 4.0 * c < 3.0 * t;
    assert 4.0 * c == (4 * m.correctAttempts) as real;
    assert 3.0 * t == (3 * m.totalAttempts) as real;
  }

  lemma ScaleLess(a: real, b: real, t: real)
    requires t > 0.0
    ensures a < b <==> a * t < b * t
  {
    assert (b - a) * t == b * t - a * t;
    if a < b {
      assert (b - a) * t > 0.0;
    } else {
      assert (a - b) * t >= 0.0;
    }
  }

  /** Without attempts the accuracy counts as 0, so the row is "High Error". */
  lemma NoAttemptsHighError(m: MockTest)
    requires m.totalAttempts == 0
    ensures HighError(m) && !Slow(m)
  {
  }

  /** "Slow" appears exactly when the minutes per question are at least 3.55, the
      smallest time that rounds above 3.5. */
  lemma SlowThreshold(m: MockTest)
    requires m.totalAttempts > 0
    ensures Slow(m) <==> TimeSpent(m) / m.totalAttempts as real >= 3.55
  {
    var x := TimeSpent(m) / m.totalAttempts as real;
    var n := Tenths(x);
    if x >= 0.0 {
      assert n == (10.0 * x + 0.5).Floor;
      if x >= 3.55 {
        assert 10.0 * x + 0.5 >= 36.0;
        assert n >= 36;
      } else {
        assert 10.0 * x + 0.5 < 36.0;
        assert n < 36;
      }
    }
  }

  // ---------------------------------------------------------------------------
  // The page
  // ---------------------------------------------------------------------------

  datatype MockForm = MockForm(
    date: string, provider: string, score: real, totalAttempts: int, correctAttempts: int,
    wrongAttempts: int, timeSpentMinutes: real)

  /** `handleSubmit`'s record, with id `Date.now().toString()`, out of 100 marks and a
      time of 0 replaced by 180 minutes. */
  function NewMock(f: MockForm, now: int): (m: MockTest)
    ensures m.id == IntString(now) && m.totalMarks == 100.0 && m.timeSpentMinutes != 0.0
    ensures m.date == f.date && m.provider == f.provider && m.score == f.score
    ensures m.totalAttempts == f.totalAttempts && m.correctAttempts == f.correctAttempts && m.wrongAttempts == f.wrongAttempts
    ensures f.timeSpentMinutes != 0.0 ==> m.timeSpentMinutes == f.timeSpentMinutes
  {
    MockTest(IntString(now), f.date, f.provider, 100.0, f.score, f.totalAttempts, f.correctAttempts,
             f.wrongAttempts, if f.timeSpentMinutes == 0.0 then 180.0 else f.timeSpentMinutes)
  }

  /** The form after a submission: the numbers go back to their initial values, the date
      and the provider stay. */
  function ResetForm(f: MockForm): MockForm {
    f.(score := 0.0, totalAttempts := 0, correctAttempts := 0, wrongAttempts := 0, timeSpentMinutes := 180.0)
  }

  class Page {
    var mocks: seq<MockTest>
    var showForm: bool
    var form: MockForm
    const store: Store

    /** The initial state and the mount effect, which reads the stored mocks. */
    constructor (store: Store, now: int)
      ensures this.store == store && mocks == GetMocks(store.data) && !showForm
      ensures form == MockForm(Today(now), "", 0.0, 0, 0, 0, 180.0)
    {
      this.store := store;
      mocks := GetMocks(store.data);
      showForm := false;
      form := MockForm(Today(now), "", 0.0, 0, 0, 0, 180.0);
    }

    /** The "Log Test" button. */
    method ToggleForm()
      modifies this
      ensures showForm == !old(showForm) && mocks == old(mocks) && form == old(form)
    {
      showForm := !showForm;
    }

    /** The form's close and "Cancel" buttons. */
    method CloseForm()
      modifies this
      ensures !showForm && mocks == old(mocks) && form == old(form)
    {
      showForm := false;
    }

    /** The form's inputs. */
    method SetForm(f: MockForm)
      modifies this
      ensures form == f && mocks == old(mocks) && showForm == old(showForm)
    {
      form := f;
    }

    /** `handleSubmit`: without a provider nothing happens; otherwise the mock is saved
        first in the list, the list reloaded, the form closed and its numbers reset. */
    method HandleSubmit(now: int, stamp: string)
      requires store.Valid()
      modifies this, store
      ensures store.Valid()
      ensures old(form).provider == "" ==>
        store.data == old(store.data) && mocks == old(mocks) && form == old(form) && showForm == old(showForm)
      ensures old(form).provider != "" ==>
        store.data == WithBackup(old(store.data)[MocksKey := MocksValue([NewMock(old(form), now)] + GetMocks(old(store.data)))], store.loadedAt, stamp) &&
        mocks == [NewMock(old(form), now)] + GetMocks(old(store.data)) &&
        !showForm && form == ResetForm(old(form))
    {
      if form.provider != "" {
        store.SaveMock(NewMock(form, now), stamp);
        mocks := GetMocks(store.data);
        showForm := false;
        form := ResetForm(form);
      }
    }
  }
}
