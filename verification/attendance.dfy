/** Attendance records and the two list transforms of the page: the view
    filter (search by name, filter by day) and the removal of a deleted
    record. */
module Attendance {
  import opened Text
  import opened Sequences

  /** One check-in as the server returns it; `id` is the server's `_id`. */
  datatype Record = Record(id: string, name: string, date: string, timeIn: string)

  /** Only the first ten characters of a date (`YYYY-MM-DD`) name the day. */
  const DayLength: nat := 10

  /** `date.slice(0, 10)`: the key a record is filtered and grouped by. */
  function DayKey(date: string): (k: string)
    ensures k <= date
    ensures |k| <= DayLength
    ensures |date| <= DayLength ==> k == date
    ensures |date| >= DayLength ==> k == date[..DayLength]
  {
    Take(date, DayLength)
  }

  /** A date of ten or more characters is keyed by its first ten. */
  lemma {:induction false} DayKeyOfLongDate(date: string)
    requires |date| >= DayLength
    ensures DayKey(date) == date[..DayLength]
    ensures DayKey(date[..DayLength]) == DayKey(date)
  {
  }

  /** A time-stamped date is keyed by its calendar day. */
  lemma DayKeyIgnoresTime()
    ensures DayKey("2024-03-10T23:59:59.000Z") == "2024-03-10"
    ensures DayKey("2024-03-10") == "2024-03-10"
  {
  }

  /** `name.toLowerCase().includes(search.toLowerCase())`: the lower-cased
      search occurs somewhere in the lower-cased name. */
  predicate NameMatches(name: string, search: string)
    ensures NameMatches(name, search) <==> exists k :: OccursAt(Lower(name), Lower(search), k)
  {
    IncludesIff(Lower(name), Lower(search));
    Includes(Lower(name), Lower(search))
  }

  /** `filterDate === '' || date.slice(0, 10) === filterDate`: no day is
      selected, or the selected day is the date's prefix of length
      min(|date|, 10). */
  predicate DayMatches(date: string, filterDate: string)
    ensures DayMatches(date, filterDate) <==>
            || filterDate == ""
            || (filterDate <= date && |filterDate| == if |date| <= DayLength then |date| else DayLength)
  {
    filterDate == "" || DayKey(date) == filterDate
  }

  /** The callback passed to `filter` when the page derives its view: both
      the name test and the day test hold. */
  predicate Matches(search: string, filterDate: string, r: Record)
    ensures Matches(search, filterDate, r) <==>
            && (exists k :: OccursAt(Lower(r.name), Lower(search), k))
            && (filterDate == "" || DayKey(r.date) == filterDate)
  {
    NameMatches(r.name, search) && DayMatches(r.date, filterDate)
  }

  /** The records shown in the table and counted in the summary. */
  function Filtered(records: seq<Record>, search: string, filterDate: string): (view: seq<Record>)
    ensures IsSubsequence(view, records)
  {
    KeepIsSubsequence(records, r => Matches(search, filterDate, r));
    Keep(records, r => Matches(search, filterDate, r))
  }

  /** A record is in the view exactly when it is one of the records, its
      lower-cased name contains the lower-cased search string somewhere,
      and either no day is selected or its day key is the selected day. */
  lemma FilteredIff(records: seq<Record>, search: string, filterDate: string, r: Record)
    ensures r in Filtered(records, search, filterDate) <==>
            && r in records
            && (exists k :: OccursAt(Lower(r.name), Lower(search), k))
            && (filterDate == "" || DayKey(r.date) == filterDate)
  {
    IncludesIff(Lower(r.name), Lower(search));
    if r in records && Matches(search, filterDate, r) {
      KeepComplete(records, r' => Matches(search, filterDate, r'), r);
    }
  }

  /** The view holds every copy of a matching record and no copy of any
      other record. */
  lemma FilteredCounts(records: seq<Record>, search: string, filterDate: string, r: Record)
    ensures multiset(Filtered(records, search, filterDate))[r] ==
            if Matches(search, filterDate, r) then multiset(records)[r] else 0
  {
    KeepCounts(records, r' => Matches(search, filterDate, r'), r);
  }

  /** An empty search and no selected day show every record, in order. */
  lemma FilteredNoFilter(records: seq<Record>)
    ensures Filtered(records, "", "") == records
  {
    assert forall i :: 0 <= i < |records| ==> Matches("", "", records[i]);
    KeepAll(records, r => Matches("", "", r));
  }

  /** `prev.filter(entry => entry._id !== id)`. */
  function WithoutId(records: seq<Record>, id: string): (rest: seq<Record>)
    ensures forall r :: r in rest ==> r.id != id
    ensures IsSubsequence(rest, records)
  {
    KeepIsSubsequence(records, (r: Record) => r.id != id);
    Keep(records, (r: Record) => r.id != id)
  }

  /** Deleting removes every copy of each record with the id and keeps every
      copy of every other record. */
  lemma WithoutIdCounts(records: seq<Record>, id: string, r: Record)
    ensures multiset(WithoutId(records, id))[r] == if r.id == id then 0 else multiset(records)[r]
  {
    KeepCounts(records, (r': Record) => r'.id != id, r);
  }

  /** Deleting an id no record carries changes nothing. */
  lemma WithoutAbsentId(records: seq<Record>, id: string)
    requires forall i :: 0 <= i < |records| ==> records[i].id != id
    ensures WithoutId(records, id) == records
  {
    KeepAll(records, (r: Record) => r.id != id);
  }
}
