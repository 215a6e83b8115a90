/** The state of the job-tracker screen and the handlers that change it:
    typing into the form, submitting it (create or update), deleting, loading
    a record into the form for editing, and resetting the form. Each call to
    the record store is represented by its outcome only: `ok` says whether
    the request succeeded, and a create also receives the record the store
    sent back. A failed request is only logged, so it changes nothing here. */
module Tracker {
  import opened Records
  import opened Collection
  import Stats
  import Filtering
  import Sorting
  import Csv

  /** The request the submit handler sent to the store, if any. */
  datatype StoreCall = NoCall | Post(body: Application) | Put(id: string, body: Application)

  /** `if (editId)`: only a non-empty id puts the form in edit mode. */
  predicate Editing(editId: Option<string>) {
    editId.Some? && editId.value != ""
  }

  class JobTracker {
    var applications: seq<Application>
    var draft: Application
    var editId: Option<string>
    var showForm: bool
    var searchTerm: string
    var filterStatus: string
    var sortBy: string

    /** The draft carries the id of the record being edited (none when
        creating), and a record is only edited while the form is open. */
    ghost predicate Valid()
      reads this
    {
      draft.id == editId && (editId.Some? ==> showForm)
    }

    /** The form is closed and holds the default draft for `today`. */
    ghost predicate FormReset(today: string)
      reads this
    {
      draft == DefaultDraft(today) && !showForm && editId == None
    }

    /** The initial state: no records, an empty search, every status,
        newest first, and a closed form holding the default draft. */
    constructor (today: string)
      ensures Valid() && FormReset(today)
      ensures applications == []
      ensures searchTerm == "" && filterStatus == Filtering.All && sortBy == "date-desc"
    {
      applications := [];
      draft := DefaultDraft(today);
      editId := None;
      showForm := false;
      searchTerm := "";
      filterStatus := Filtering.All;
      sortBy := "date-desc";
    }

    /** The dashboard figures for the current collection. */
    function Statistics(): Stats.Statistics
      reads this
    {
      Stats.Compute(applications)
    }

    /** The list the screen shows: the filtered records, sorted. */
    function VisibleApplications(): seq<Application>
      reads this
    {
      Sorting.Visible(applications, searchTerm, filterStatus, sortBy)
    }

    /** The text of the CSV export of the whole collection. */
    function ExportText(localeDate: string -> string): string
      reads this
    {
      Csv.Text(applications, localeDate)
    }

    method SetSearchTerm(term: string)
      modifies this`searchTerm
      ensures searchTerm == term
    {
      searchTerm := term;
    }

    method SetFilterStatus(status: string)
      modifies this`filterStatus
      ensures filterStatus == status
    {
      filterStatus := status;
    }

    method SetSortBy(key: string)
      modifies this`sortBy
      ensures sortBy == key
    {
      sortBy := key;
    }

    /** The "+ Add Application" buttons only open the form. */
    method OpenAddForm()
      requires Valid()
      modifies this`showForm
      ensures Valid() && showForm
    {
      showForm := true;
    }

    /** `handleInputChange`: the named draft field takes the typed value;
        every other field and the id stay as they were. */
    method HandleInputChange(f: Field, value: string)
      requires Valid()
      modifies this`draft
      ensures Valid()
      ensures draft == With(old(draft), f, value)
      ensures Get(draft, f) == value
      ensures forall g :: g != f ==> Get(draft, g) == Get(old(draft), g)
    {
      draft := With(draft, f, value);
    }

    /** `resetForm`: default draft, form closed, not editing. */
    method ResetForm(today: string)
      modifies this`draft, this`showForm, this`editId
      ensures Valid() && FormReset(today)
    {
      draft := DefaultDraft(today);
      showForm := false;
      editId := None;
    }

    /** `handleAddApplication`. Without a company and a position nothing
        happens and the store is not called. Otherwise an edit sends an
        update and, once it succeeds, puts the draft in place of every
        record with that id; a create sends the draft and, once it succeeds,
        appends the record the store returned. Either success resets the
        form; a failure leaves every piece of state as it was. */
    method HandleAddApplication(ok: bool, returned: Application, today: string) returns (call: StoreCall)
      requires Valid()
      modifies this`applications, this`draft, this`editId, this`showForm
      ensures Valid()
      ensures !CanSubmit(old(draft)) ==> call == NoCall
      ensures CanSubmit(old(draft)) && Editing(old(editId)) ==> call == Put(old(editId).value, old(draft))
      ensures CanSubmit(old(draft)) && !Editing(old(editId)) ==> call == Post(old(draft))
      ensures call == NoCall || !ok ==>
                applications == old(applications) && draft == old(draft)
                && editId == old(editId) && showForm == old(showForm)
      ensures call.Put? && ok ==>
                applications == ReplaceById(old(applications), call.id, old(draft)) && FormReset(today)
      ensures call.Post? && ok ==> applications == old(applications) + [returned] && FormReset(today)
    {
      call := NoCall;
      if CanSubmit(draft) {
        if Editing(editId) {
          call := Put(editId.value, draft);
          if ok {
            applications := ReplaceById(applications, editId.value, draft);
            editId := None;
            ResetForm(today);
          }
        } else {
          call := Post(draft);
          if ok {
            applications := applications + [returned];
            ResetForm(today);
          }
        }
      }
    }

    /** `deleteApplication`: once the store confirms, drop every record with
        that id and keep the rest in order; on failure keep everything. */
    method DeleteApplication(id: string, ok: bool)
      requires Valid()
      modifies this`applications
      ensures Valid()
      ensures ok ==> applications == RemoveById(old(applications), id)
      ensures !ok ==> applications == old(applications)
    {
      if ok {
        applications := RemoveById(applications, id);
      }
    }

    /** `editApplication`: load the first record with that id into the draft,
        its date cut down to the part before any `T`, and open the form in
        edit mode for that id. The id comes from a record on screen. */
    method EditApplication(id: string)
      requires Valid()
      requires HasId(applications, id)
      modifies this`draft, this`editId, this`showForm
      ensures Valid()
      ensures var found := applications[FirstIndexOf(applications, id)];
              draft == found.(date := DatePart(found.date))
      ensures editId == Some(id) && showForm
    {
      var k := FirstIndexOf(applications, id);
      var found := applications[k];
      draft := found.(date := DatePart(found.date));
      editId := Some(id);
      showForm := true;
    }
  }

  /** Submitting with an empty company or position makes no request and
      changes nothing, even when the store would have succeeded. */
  method SubmitBlockedWithoutCompany(t: JobTracker, returned: Application, today: string)
    requires t.Valid() && t.draft.company == ""
    modifies t
    ensures t.applications == old(t.applications) && t.draft == old(t.draft)
    ensures t.editId == old(t.editId) && t.showForm == old(t.showForm)
  {
    var call := t.HandleAddApplication(true, returned, today);
    assert call == NoCall;
  }

  /** Opening a record for editing and cancelling leaves the collection as
      it was and closes the form. */
  method EditThenCancel(t: JobTracker, id: string, today: string)
    requires t.Valid() && HasId(t.applications, id)
    modifies t
    ensures t.applications == old(t.applications)
    ensures t.FormReset(today)
  {
    t.EditApplication(id);
    t.ResetForm(today);
  }

  /** Editing a record, changing its notes and submitting successfully
      writes that record back with the new notes and its date cut at `T`,
      leaves every other record as it was, keeps the number of records and
      their ids unique, and closes the form. */
  method EditNotesAndSave(t: JobTracker, id: string, notes: string, today: string)
    requires t.Valid() && HasId(t.applications, id) && UniqueIds(t.applications)
    requires id != ""
    requires CanSubmit(t.applications[FirstIndexOf(t.applications, id)])
    modifies t
    ensures |t.applications| == |old(t.applications)|
    ensures forall i | 0 <= i < |t.applications| && old(t.applications)[i].id != Some(id) ::
              t.applications[i] == old(t.applications)[i]
    ensures var found := old(t.applications)[FirstIndexOf(old(t.applications), id)];
            forall i | 0 <= i < |t.applications| && old(t.applications)[i].id == Some(id) ::
              t.applications[i] == found.(date := DatePart(found.date), notes := notes)
    ensures UniqueIds(t.applications)
    ensures t.FormReset(today)
  {
    t.EditApplication(id);
    t.HandleInputChange(Notes, notes);
    var d := t.draft;
    assert d.notes == Get(d, Notes) == notes;
    var call := t.HandleAddApplication(true, d, today);
    ReplaceKeepsUniqueIds(old(t.applications), id, d);
  }
}
