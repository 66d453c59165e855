# Gym attendance page — a Dafny model

This project models the list logic of the gym-attendance page
(`gms-frontend/src/Pages/Attendance/GymAttendance.js`): the page keeps a list
of check-in records, a name search string, a day filter, a draft entry for the
add-attendance form and a flag telling whether that form is shown. From these it
derives the visible records (case-insensitive name search, optional day filter)
and a per-day tally of visits that feeds the summary chart. The user can add a
record (sent to the server, appended on success) and delete one (removed by
`_id` on success).

Modules:

- `Text` (`text.dfy`): ASCII lower-casing, substring search (`includes`) and
  `slice(0, n)`.
- `Sequences` (`sequences.dfy`): `Keep`, the model of `Array.prototype.filter`,
  and the notion of a subsequence (the result of deleting elements while
  keeping order).
- `Attendance` (`attendance.dfy`): the record type, the day key
  `date.slice(0, 10)`, the view filter and the delete filter.
- `Summary` (`summary.dfy`): the `reduce` that tallies visits per day, as a
  loop over the view, with its specification functions and lemmas.
- `Page` (`page.dfy`): the page's five state slices as a class whose methods
  are the event handlers. Each server call is replaced by its outcome, a
  `Reply` parameter: `Ok(body)` or `Failed`. A failure is the `await` that
  throws into the `catch` before any setter runs, so it leaves the state alone.

A failed submit keeps the form open with the draft intact: the draft is
cleared and the form closed only after the `await` at line 43 succeeds
(lines 44-46).

## Model

| member | source | states |
|---|---|---|
| `Text.LowerChar` | gms-frontend/src/Pages/Attendance/GymAttendance.js:28 | the lower-cased character is never an upper-case ASCII letter and is the same letter as the input up to case |
| `Text.Lower` | gms-frontend/src/Pages/Attendance/GymAttendance.js:28 | `toLowerCase` keeps the length and lower-cases every position, changing nothing but letter case |
| `Text.LowerAgree` | gms-frontend/src/Pages/Attendance/GymAttendance.js:28 | two strings lower-case to the same string exactly when they agree position by position up to letter case, so the search ignores case |
| `Text.LowerIdempotent` | gms-frontend/src/Pages/Attendance/GymAttendance.js:28 | lower-casing an already lower-cased string changes nothing |
| `Text.Includes` | gms-frontend/src/Pages/Attendance/GymAttendance.js:28 | `includes` finds a needle that is a prefix of the haystack and never one longer than the haystack; `Text.IncludesIff` gives the full characterisation |
| `Text.IncludesIff` | gms-frontend/src/Pages/Attendance/GymAttendance.js:28 | `includes` holds exactly when the needle occurs at some index of the haystack (both directions) |
| `Text.Take` | gms-frontend/src/Pages/Attendance/GymAttendance.js:29 | `slice(0, n)` is a prefix of the string, of length n, or the whole string when it is shorter |
| `Sequences.Keep` | gms-frontend/src/Pages/Attendance/GymAttendance.js:27-30 | `filter` returns no more elements than it is given, and each one comes from the input and passes the predicate |
| `Attendance.DayKey` | gms-frontend/src/Pages/Attendance/GymAttendance.js:34 | the day key is a prefix of the date of at most 10 characters: the first 10 characters of a longer date, and the whole of a date of at most 10 characters |
| `Attendance.DayKeyOfLongDate` | gms-frontend/src/Pages/Attendance/GymAttendance.js:34 | a date of 10 or more characters is keyed by its first 10, and cutting it to those 10 does not change its key |
| `Attendance.DayKeyIgnoresTime` | gms-frontend/src/Pages/Attendance/GymAttendance.js:29 | `"2024-03-10T23:59:59.000Z"` and `"2024-03-10"` share the key `"2024-03-10"` |
| `Attendance.NameMatches` | gms-frontend/src/Pages/Attendance/GymAttendance.js:28 | a name matches exactly when the lower-cased search occurs at some index of the lower-cased name |
| `Attendance.DayMatches` | gms-frontend/src/Pages/Attendance/GymAttendance.js:29 | a date matches exactly when the day filter is empty or is the date's prefix of length min(length of date, 10) |
| `Attendance.Matches` | gms-frontend/src/Pages/Attendance/GymAttendance.js:28-29 | the filter callback holds exactly when the lower-cased search occurs in the lower-cased name and the day filter is empty or equals the day key |
| `Attendance.Filtered` | gms-frontend/src/Pages/Attendance/GymAttendance.js:27-30 | the view is a subsequence of the records: records are only dropped, never reordered |
| `Attendance.FilteredIff` | gms-frontend/src/Pages/Attendance/GymAttendance.js:27-30 | a record is visible exactly when it is among the records, its lower-cased name contains the lower-cased search at some index, and the day filter is empty or equals its day key |
| `Attendance.FilteredCounts` | gms-frontend/src/Pages/Attendance/GymAttendance.js:27-30 | the view holds every copy of each matching record and no copy of any other |
| `Attendance.FilteredNoFilter` | gms-frontend/src/Pages/Attendance/GymAttendance.js:27-30 | an empty search and an empty day filter show exactly the records, in order |
| `Attendance.WithoutId` | gms-frontend/src/Pages/Attendance/GymAttendance.js:56 | after the delete filter no record carries the id, and the rest is a subsequence of the records |
| `Attendance.WithoutIdCounts` | gms-frontend/src/Pages/Attendance/GymAttendance.js:56 | the delete filter drops every copy of the records with the id and keeps every copy of all others |
| `Attendance.WithoutAbsentId` | gms-frontend/src/Pages/Attendance/GymAttendance.js:56 | deleting an id that no record carries leaves the records unchanged |
| `Summary.AttendanceByDate` | gms-frontend/src/Pages/Attendance/GymAttendance.js:33-37 | the keys inserted into the accumulator, in insertion order, are the view's day keys in first-occurrence order, and its keys are exactly those; each count is the number of visible records with that key and at least 1; the counts add up to the number of visible records |
| `Summary.FirstSeenDistinct` | gms-frontend/src/Pages/Attendance/GymAttendance.js:33-37 | no day key is listed twice |
| `Summary.FirstSeenExactly` | gms-frontend/src/Pages/Attendance/GymAttendance.js:33-37 | a day is listed exactly when some record has that day key |
| `Summary.FirstSeenOrder` | gms-frontend/src/Pages/Attendance/GymAttendance.js:33-37 | of any two listed days, some record of the earlier one comes before every record of the later one: keys appear in first-occurrence order, the order of the chart's bars |
| `Summary.CountPositive` | gms-frontend/src/Pages/Attendance/GymAttendance.js:35 | a day has a count of at least 1 exactly when it is listed |
| `Summary.SumCountsStep` | gms-frontend/src/Pages/Attendance/GymAttendance.js:35 | one more record adds one to the total of the listed days' counts exactly when its day is listed |
| `Summary.CountsTotal` | gms-frontend/src/Pages/Attendance/GymAttendance.js:33-37 | the counts of the listed days sum to the number of records tallied |
| `Summary.TallyExample` | gms-frontend/src/Pages/Attendance/GymAttendance.js:33-37 | records dated `2024-01-05`, `2024-01-05T10:00`, `2024-01-06` tally to `2024-01-05: 2`, `2024-01-06: 1`, in that order |
| `Page.AttendancePage.Visible` | gms-frontend/src/Pages/Attendance/GymAttendance.js:27 | the table's rows are a subsequence of the records, and all of the records when the search and the day filter are both empty |
| `Page.AttendancePage.constructor` | gms-frontend/src/Pages/Attendance/GymAttendance.js:6-10 | the page starts with no records, empty search and day filter, an empty draft and the form closed |
| `Page.AttendancePage.Load` | gms-frontend/src/Pages/Attendance/GymAttendance.js:13-20 | a successful fetch replaces the records with the response; a failure changes nothing; no other state changes |
| `Page.AttendancePage.SetSearchName` | gms-frontend/src/Pages/Attendance/GymAttendance.js:72 | the search string becomes the input's value; nothing else changes |
| `Page.AttendancePage.SetFilterDate` | gms-frontend/src/Pages/Attendance/GymAttendance.js:77 | the day filter becomes the input's value; nothing else changes |
| `Page.AttendancePage.OpenForm` | gms-frontend/src/Pages/Attendance/GymAttendance.js:84 | the form is shown; nothing else changes |
| `Page.AttendancePage.CancelForm` | gms-frontend/src/Pages/Attendance/GymAttendance.js:116 | the form is hidden and the draft is kept as it is |
| `Page.AttendancePage.SetDraftName` | gms-frontend/src/Pages/Attendance/GymAttendance.js:101 | only the draft's name is replaced |
| `Page.AttendancePage.SetDraftDate` | gms-frontend/src/Pages/Attendance/GymAttendance.js:107 | only the draft's date is replaced |
| `Page.AttendancePage.SetDraftTimeIn` | gms-frontend/src/Pages/Attendance/GymAttendance.js:113 | only the draft's time is replaced |
| `Page.AttendancePage.AddEntry` | gms-frontend/src/Pages/Attendance/GymAttendance.js:40-50 | a request is made exactly when name, date and time are all non-empty; on success the server's record is appended (one more record), the draft is emptied and the form closed; with an incomplete draft or a failed request records, draft and form are unchanged; the filters never change |
| `Page.AttendancePage.DeleteEntry` | gms-frontend/src/Pages/Attendance/GymAttendance.js:53-60 | on success the records become the delete filter of the old records, so none carries the id; on failure they are unchanged; no other state changes |
| `Page.AttendancePage.Summarise` | gms-frontend/src/Pages/Attendance/GymAttendance.js:27-37 | the chart data of the current view: its day keys in first-occurrence order, each with its positive count, summing to the number of visible rows |
| `Page.AddThenDelete` | gms-frontend/src/Pages/Attendance/GymAttendance.js:44-56 | appending a record whose id is new and then deleting that id gives back the original records |

## Left out

- The HTTP calls, their fixed `localhost:4000` URLs, and `console.error` (lines 15, 18, 43, 48, 55, 58): each call is a `Reply` parameter, and the logging has no effect on state.
- When the fetch runs (`useEffect` on mount, lines 22-24): `Load` models what the fetch does to the state, not when it runs.
- Interleaving of requests in flight: each handler is applied atomically to the current state, so the model does not capture a success arriving after other events, nor a field setter that spreads a stale copy of the draft (lines 101, 107, 113).
- All JSX rendering, styling, the icon and the table markup (lines 62-172). The bar height `count * 40` pixels (line 163) is presentation; it is linear in the count.
- `Text.Lower`: lower-cases ASCII letters only, not the full Unicode mapping of `toLowerCase`.
- `Text.Take`: counts characters, whereas JavaScript's `slice` counts UTF-16 code units; the two agree on ASCII dates.
- Records without a `name` or `date`: a missing `name` throws at line 28; a missing `date` throws only for a record whose name matches the search: at line 29 when a day filter is set, otherwise at line 34 (the reduce). In the model every record has all four fields as strings.
- The order of keys in `Object.entries` (line 159): the model keeps insertion order in `order`, and does not model JavaScript moving integer-like keys to the front, which `YYYY-MM-DD` keys never are (a date such as `"2024"` or `"7"` would give such a key).
- Uniqueness of `_id`: the code does not check it, so the model does not assume it; `DeleteEntry` removes every record with the id.
- `Summary.AttendanceByDate`: the accumulator is modelled as a map with no prototype, kept in insertion order for every key. In the code the accumulator is a plain `{}` (line 37), so a day key that names an inherited property behaves differently: for `"toString"` or `"valueOf"`, `acc[date] || 0` reads the inherited function and the count becomes a string (line 35), and a `"__proto__"` key is never stored, so `Object.entries` (line 159) drops that day. The model lists each such day with its true count.
