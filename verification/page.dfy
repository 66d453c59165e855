/** The attendance page's state and the handlers that change it. Each
    server call is replaced by its outcome, passed in as a `Reply`. */
module Page {
  import opened Attendance
  import opened Summary
  import opened Sequences

  /** The add-attendance form's fields (`newEntry`). */
  datatype Draft = Draft(name: string, date: string, timeIn: string)

  const EmptyDraft := Draft("", "", "")

  /** The outcome of a request: the response body, or a failure (the
      rejected `await` that lands in the `catch`). */
  datatype Reply<T> = Ok(value: T) | Failed

  /** The guard of `addEntry`: every field of the draft is non-empty. */
  predicate Submittable(d: Draft) {
    d.name != "" && d.date != "" && d.timeIn != ""
  }

  class AttendancePage {
    var records: seq<Record>
    var searchName: string
    var filterDate: string
    var draft: Draft
    var showForm: bool

    /** The state on mount: no records, no filters, an empty draft, the form closed. */
    constructor ()
      ensures records == [] && searchName == "" && filterDate == ""
      ensures draft == EmptyDraft && !showForm
    {
      records := [];
      searchName := "";
      filterDate := "";
      draft := EmptyDraft;
      showForm := false;
    }

    /** The rows of the table: the records kept by the search and the day
        filter, in their order; every record when both are empty. */
    function Visible(): (view: seq<Record>)
      reads this
      ensures IsSubsequence(view, records)
      ensures searchName == "" && filterDate == "" ==> view == records
    {
      FilteredNoFilter(records);
      Filtered(records, searchName, filterDate)
    }

    /** `fetchAttendance`: a response replaces the records; a failure changes nothing. */
    method Load(reply: Reply<seq<Record>>)
      modifies this
      ensures reply.Ok? ==> records == reply.value
      ensures reply.Failed? ==> records == old(records)
      ensures searchName == old(searchName) && filterDate == old(filterDate)
      ensures draft == old(draft) && showForm == old(showForm)
    {
      if reply.Ok? {
        records := reply.value;
      }
    }

    /** The search box's change handler. */
    method SetSearchName(value: string)
      modifies this
      ensures searchName == value
      ensures records == old(records) && filterDate == old(filterDate)
      ensures draft == old(draft) && showForm == old(showForm)
    {
      searchName := value;
    }

    /** The date filter's change handler. */
    method SetFilterDate(value: string)
      modifies this
      ensures filterDate == value
      ensures records == old(records) && searchName == old(searchName)
      ensures draft == old(draft) && showForm == old(showForm)
    {
      filterDate := value;
    }

    /** The "Add Attendance" button. */
    method OpenForm()
      modifies this
      ensures showForm
      ensures records == old(records) && searchName == old(searchName)
      ensures filterDate == old(filterDate) && draft == old(draft)
    {
      showForm := true;
    }

    /** The form's Cancel button: closes the form and keeps the draft. */
    method CancelForm()
      modifies this
      ensures !showForm
      ensures records == old(records) && searchName == old(searchName)
      ensures filterDate == old(filterDate) && draft == old(draft)
    {
      showForm := false;
    }

    /** The name field's change handler. */
    method SetDraftName(value: string)
      modifies this
      ensures draft == old(draft).(name := value)
      ensures records == old(records) && searchName == old(searchName)
      ensures filterDate == old(filterDate) && showForm == old(showForm)
    {
      draft := draft.(name := value);
    }

    /** The date field's change handler. */
    method SetDraftDate(value: string)
      modifies this
      ensures draft == old(draft).(date := value)
      ensures records == old(records) && searchName == old(searchName)
      ensures filterDate == old(filterDate) && showForm == old(showForm)
    {
      draft := draft.(date := value);
    }

    /** The time field's change handler. */
    method SetDraftTimeIn(value: string)
      modifies this
      ensures draft == old(draft).(timeIn := value)
      ensures records == old(records) && searchName == old(searchName)
      ensures filterDate == old(filterDate) && showForm == old(showForm)
    {
      draft := draft.(timeIn := value);
    }

    /** `addEntry`. `requested` tells whether the POST was sent; `reply` is its
        outcome. Without a complete draft nothing happens; on success the
        server's record is appended, the draft cleared and the form closed;
        on failure nothing changes. */
    method AddEntry(reply: Reply<Record>) returns (requested: bool)
      modifies this
      ensures requested <==> old(draft).name != "" && old(draft).date != "" && old(draft).timeIn != ""
      ensures requested && reply.Ok? ==>
                && records == old(records) + [reply.value]
                && draft == EmptyDraft
                && !showForm
      ensures !requested || reply.Failed? ==>
                records == old(records) && draft == old(draft) && showForm == old(showForm)
      ensures searchName == old(searchName) && filterDate == old(filterDate)
    {
      if !Submittable(draft) {
        return false;
      }
      requested := true;
      if reply.Ok? {
        records := records + [reply.value];
        draft := EmptyDraft;
        showForm := false;
      }
    }

    /** `deleteEntry(id)`. On success every record with that id is removed and
        the others keep their order; on failure nothing changes. */
    method DeleteEntry(id: string, reply: Reply<()>)
      modifies this
      ensures reply.Ok? ==> records == WithoutId(old(records), id)
      ensures reply.Ok? ==> forall r :: r in records ==> r.id != id
      ensures reply.Failed? ==> records == old(records)
      ensures searchName == old(searchName) && filterDate == old(filterDate)
      ensures draft == old(draft) && showForm == old(showForm)
    {
      if reply.Ok? {
        records := WithoutId(records, id);
      }
    }

    /** The summary chart's data for the current view. */
    method Summarise() returns (order: seq<string>, counts: map<string, nat>)
      ensures order == FirstSeen(Visible())
      ensures forall d :: d in counts <==> d in order
      ensures forall d :: d in counts ==> counts[d] == CountOn(Visible(), d) && counts[d] >= 1
      ensures SumCounts(order, Visible()) == |Visible()|
    {
      order, counts := AttendanceByDate(Visible());
    }
  }

  /** Adding then deleting a record whose id nothing else carries gives back
      the records as they were. */
  lemma AddThenDelete(records: seq<Record>, added: Record)
    requires forall i :: 0 <= i < |records| ==> records[i].id != added.id
    ensures WithoutId(records + [added], added.id) == records
  {
    KeepAppend(records, [added], (r: Record) => r.id != added.id);
    assert Keep([added], (r: Record) => r.id != added.id) == [];
    WithoutAbsentId(records, added.id);
  }
}
