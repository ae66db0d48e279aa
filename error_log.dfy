/** src/components/ErrorLog.tsx: the "black book" of mistakes — logging an entry, the
    subject filter and the time-sink badge. The clock is the `now` parameter and the
    image compressor's result the `image` argument. */
module ErrorLog {
  import opened Common
  import opened Calendar
  import opened Model
  import opened Storage
  import opened SubjectYield

  /** The form. `timeSpentSeconds` is the number input's value; `None` stands for an input
      that does not parse (`NaN`). */
  datatype ErrorForm = ErrorForm(
    date: string, subject: Subject, topic: string, mistakeType: MistakeType, notes: string,
    timeSpentSeconds: Option<real>)

  function InitialForm(now: int): ErrorForm {
    ErrorForm(Today(now), CN, "", Concept, "", Some(0.0))
  }

  /** The guard `if (!formData.topic || !formData.notes) return`. */
  predicate Accepted(f: ErrorForm) {
    f.topic != "" && f.notes != ""
  }

  /** `Number(formData.timeSpentSeconds) || 0`. */
  function Seconds(t: Option<real>): (r: real)
    ensures t.None? ==> r == 0.0
    ensures t.Some? ==> r == t.value
  {
    if t.Some? then t.value else 0.0
  }

  /** `selectedImage || undefined`. */
  function ImageUrl(selected: Option<string>): (r: Option<string>)
    ensures r.Some? <==> selected.Some? && selected.value != ""
    ensures r.Some? ==> r == selected
  {
    if selected.Some? && selected.value != "" then selected else None
  }

  /** The new entry: never reviewed yet, with the form's fields. */
  function NewError(f: ErrorForm, now: int, selected: Option<string>): (e: ErrorEntry)
    ensures e.id == IntString(now) && e.reviewCount == 0
    ensures e.date == f.date && e.subject == f.subject && e.topic == f.topic
    ensures e.mistakeType == f.mistakeType && e.notes == f.notes
    ensures e.timeSpentSeconds == Seconds(f.timeSpentSeconds) && e.imageUrl == ImageUrl(selected)
  {
    ErrorEntry(IntString(now), f.date, f.subject, f.topic, f.mistakeType, Seconds(f.timeSpentSeconds),
               f.notes, 0, ImageUrl(selected))
  }

  /** `setFormData({ ...formData, topic: '', notes: '', timeSpentSeconds: 0 })`. */
  function ClearedForm(f: ErrorForm): (r: ErrorForm)
    ensures r.date == f.date && r.subject == f.subject && r.mistakeType == f.mistakeType
    ensures r.topic == "" && r.notes == "" && r.timeSpentSeconds == Some(0.0)
  {
    f.(topic := "", notes := "", timeSpentSeconds := Some(0.0))
  }

  /** A cleared form is not accepted again until a topic and notes are typed. */
  lemma ClearedNotAccepted(f: ErrorForm)
    ensures !Accepted(ClearedForm(f))
  {
  }

  // ---------------------------------------------------------------------------
  // The subject filter; `None` is the 'All' option
  // ---------------------------------------------------------------------------

  function OfSubject(s: Subject): ErrorEntry -> bool { (e: ErrorEntry) => e.subject == s }

  function FilteredErrors(errors: seq<ErrorEntry>, filter: Option<Subject>): (r: seq<ErrorEntry>)
    ensures filter.None? ==> r == errors
    ensures filter.Some? ==> forall e :: e in r <==> e in errors && e.subject == filter.value
  {
    if filter.None? then errors
    else
      var r := Filter(errors, OfSubject(filter.value));
      assert forall e :: e in errors && e.subject == filter.value ==> e in r by {
        forall e | e in errors && e.subject == filter.value ensures e in r {
          var i :| 0 <= i < |errors| && errors[i] == e;
          assert OfSubject(filter.value)(errors[i]);
        }
      }
      assert forall e :: e in r ==> e.subject == filter.value by {
        forall e | e in r ensures e.subject == filter.value {
          var i :| 0 <= i < |r| && r[i] == e;
          assert OfSubject(filter.value)(r[i]);
        }
      }
      r
  }

  /** A subject filter keeps the entries in their order: filtering a concatenation is
      concatenating the filtered parts. */
  lemma FilterKeepsOrder(a: seq<ErrorEntry>, b: seq<ErrorEntry>, s: Subject)
    ensures FilteredErrors(a + b, Some(s)) == FilteredErrors(a, Some(s)) + FilteredErrors(b, Some(s))
  {
    FilterConcat(a, b, OfSubject(s));
  }

  /** A subject's filtered list is as long as that subject's mistake count. */
  lemma {:induction false} FilteredCount(errors: seq<ErrorEntry>, s: Subject)
    ensures |FilteredErrors(errors, Some(s))| == ErrorsOf(errors, s)
  {
    if errors != [] {
      var init := errors[..|errors| - 1];
      var last := errors[|errors| - 1];
      FilteredCount(init, s);
      assert init + [last] == errors;
      FilterConcat(init, [last], OfSubject(s));
      assert [last][1..] == [];
    }
  }

  /** Every entry passes exactly one subject filter, so the lists of all subjects
      together are as long as the whole log. */
  lemma FiltersPartition(errors: seq<ErrorEntry>)
    ensures CountsOver(Subjects, errors) == |errors|
    ensures forall s :: |FilteredErrors(errors, Some(s))| == ErrorsOf(errors, s)
  {
    CountsAddUp(errors);
    forall s ensures |FilteredErrors(errors, Some(s))| == ErrorsOf(errors, s) {
      FilteredCount(errors, s);
    }
  }

  // ---------------------------------------------------------------------------
  // The time-sink badge
  // ---------------------------------------------------------------------------

  /** "Time Sink: {Math.floor(seconds / 60)}m wasted", shown above three minutes. */
  function TimeSinkMinutes(e: ErrorEntry): (r: Option<int>)
    ensures r.Some? <==> e.timeSpentSeconds > 180.0
    ensures r.Some? ==> r.value >= 3 && 60.0 * (r.value as real) <= e.timeSpentSeconds < 60.0 * ((r.value + 1) as real)
  {
    if e.timeSpentSeconds > 180.0 then Some((e.timeSpentSeconds / 60.0).Floor) else None
  }

  // ---------------------------------------------------------------------------
  // The page
  // ---------------------------------------------------------------------------

  class Page {
    var errors: seq<ErrorEntry>
    var showForm: bool
    var filterSubject: Option<Subject>
    var selectedImage: Option<string>
    var form: ErrorForm
    const store: Store

    /** The initial state and the mount effect, which reads the stored entries. */
    constructor (store: Store, now: int)
      ensures this.store == store && errors == GetErrors(store.data)
      ensures !showForm && filterSubject.None? && selectedImage.None? && form == InitialForm(now)
    {
      this.store := store;
      errors := GetErrors(store.data);
      showForm := false;
      filterSubject := None;
      selectedImage := None;
      form := InitialForm(now);
    }

    method ToggleForm()
      modifies this
      ensures filterSubject == old(filterSubject) && selectedImage == old(selectedImage)
      ensures showForm == !old(showForm) && errors == old(errors) && form == old(form)
    {
      showForm := !showForm;
    }

    /** The form's inputs. */
    method SetForm(f: ErrorForm)
      modifies this
      ensures showForm == old(showForm) && filterSubject == old(filterSubject)
      ensures form == f && errors == old(errors) && selectedImage == old(selectedImage)
    {
      form := f;
    }

    /** The subject drop-down. */
    method SetFilter(filter: Option<Subject>)
      modifies this
      ensures showForm == old(showForm) && selectedImage == old(selectedImage)
      ensures filterSubject == filter && errors == old(errors) && form == old(form)
    {
      filterSubject := filter;
    }

    /** `handleImageSelect` after the compressor returned `image`. */
    method SelectImage(image: string)
      modifies this
      ensures showForm == old(showForm) && filterSubject == old(filterSubject)
      ensures selectedImage == Some(image) && errors == old(errors) && form == old(form)
    {
      selectedImage := Some(image);
    }

    /** The "remove attachment" button next to an attached image. */
    method RemoveImage()
      modifies this
      ensures selectedImage == None && errors == old(errors) && form == old(form)
      ensures showForm == old(showForm) && filterSubject == old(filterSubject)
    {
      selectedImage := None;
    }

    /** `handleSubmit`: a form without topic or notes changes nothing; otherwise the entry
        is saved first in the black book, the list reloaded, topic, notes and time
        cleared and the image dropped. `diskUrl` is where the image is written. */
    method HandleSubmit(now: int, diskUrl: string, stamp: string)
      requires store.Valid()
      modifies this, store
      ensures store.Valid()
      ensures !Accepted(old(form)) ==>
        store.data == old(store.data) && errors == old(errors) && form == old(form) && selectedImage == old(selectedImage)
      ensures Accepted(old(form)) ==>
        var e := StoredError(NewError(old(form), now, old(selectedImage)), diskUrl);
        store.data == WithBackup(old(store.data)[ErrorsKey := ErrorsValue([e] + GetErrors(old(store.data)))], store.loadedAt, stamp) &&
        errors == [e] + GetErrors(old(store.data)) &&
        form == ClearedForm(old(form)) && selectedImage.None?
      ensures filterSubject == old(filterSubject) && showForm == old(showForm)
    {
      if Accepted(form) {
        store.SaveError(NewError(form, now, selectedImage), diskUrl, stamp);
        errors := GetErrors(store.data);
        form := ClearedForm(form);
        selectedImage := None;
      }
    }

    /** The list on screen. */
    function Shown(): seq<ErrorEntry>
      reads this
    {
      FilteredErrors(errors, filterSubject)
    }
  }
}
