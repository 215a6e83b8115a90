# Job Tracker: a Dafny model of the application screen

Job Tracker is a single-page React application for keeping a list of job
applications. Each application records a company, a position, a location,
a status (`pending`, `interview`, `offer` or `rejected`), a date, a salary
and free-text notes. The records are stored by a REST back end.

This project models the logic of the screen component
(`frontend/src/App.js`):

- **Dashboard statistics** (module `Stats`). The figures are the total, one
  count per status, and the response rate. The response rate is the
  rounded percentage of applications that are no longer pending.
- **The visible list**. Module `Filtering` keeps the records whose company,
  position or location contains the search term, ignoring case, and whose
  status matches the drop-down. Module `Sorting` orders them with the
  comparator selected by the sort drop-down: date, company or salary, each
  ascending or descending. It uses a stable sort, so records the
  comparator ties keep their order.
- **The form and the collection** (module `Tracker`, class `JobTracker`).
  This covers typing into the form, submitting it (an update when a
  record is being edited, otherwise a create), deleting a record, loading
  a record into the form, and resetting the form. Records are located
  through the helpers in `Collection`.
- **The CSV export** (module `Csv`). It produces the header line, then one
  line per record in collection order.

Supporting modules: `Text` holds the string operations the source relies
on (lower-casing, substring search, keeping only digits, code-point
comparison), `Seqs` the subsequence relation, and `Records` the record
type, its fields and the default draft.

Store requests are not performed. Each handler takes the request's outcome
as a parameter: `ok` says whether it succeeded, and a create also takes
the record the store sent back. Today's date is a parameter too. The CSV
date cell uses a `localeDate` function parameter, which stands for the
browser's locale-dependent date formatting.

These behaviours of the code are modelled as written:

- The CSV export wraps four text fields in double quotes without escaping
  quotes inside them. `Csv.QuotesNotEscaped` exhibits two different
  records with the same line.
- The CSV export leaves status and salary unquoted, so a salary with a
  thousands separator splits into two cells (`Csv.UnquotedSalarySplits`).
- The CSV date cell is the browser's locale date string, not the stored
  date.
- Editing an id that is not in the collection throws, because the result
  of `find` is dereferenced. `Tracker.JobTracker.EditApplication` requires
  the id to be present.

## Model

| member | source | states |
|---|---|---|
| Text.Lower | frontend/src/App.js:66-68 | lower-casing keeps the length and leaves no capital; each capital becomes its own small letter (32 code points on) and every other character is unchanged |
| Text.LowerIgnoresCase | frontend/src/App.js:66-68 | two texts that differ only in the case of their letters lower-case to the same text, so the search ignores case |
| Text.LowerIdempotent | frontend/src/App.js:66-68 | lower-casing twice is lower-casing once |
| Text.ContainsEmpty | frontend/src/App.js:66-68 | every text contains the empty search term |
| Text.ContainsTooLong | frontend/src/App.js:66-68 | a term longer than the text is never found in it |
| Text.DigitsOnly | frontend/src/App.js:87-88 | removing non-digits leaves an order-preserving subsequence of the text made only of digits; an all-digit text is unchanged; a text without digits becomes empty |
| Text.DigitsOnlyCounts | frontend/src/App.js:87-88 | every digit of the text is kept as often as it occurs and nothing else is kept, which with the subsequence property fixes the result |
| Text.DigitsOnlyAppend | frontend/src/App.js:87-88 | removing the non-digits of a concatenation removes them from each part |
| Text.DecimalValueLeadingZero | frontend/src/App.js:87-88 | leading zeros do not change the parsed value, as `parseInt("007")` is 7 |
| Text.SalaryValue | frontend/src/App.js:87-88 | a salary with no digits counts as 0; an all-digit salary counts as its decimal value |
| Text.SalaryValueSnoc | frontend/src/App.js:87-88 | reading left to right, a character that is not a digit leaves the key unchanged and a digit shifts it one decimal place and adds itself; with the empty text at 0 this fixes the key of every text |
| Text.SalaryOfFiftyThousand | frontend/src/App.js:87-88 | the placeholder-style salary "$50,000" has key 50000 |
| Text.SalaryOfHundredTwentyThousand | frontend/src/App.js:87-88 | "$120,000" has key 120000 |
| Text.SalaryWithoutDigits | frontend/src/App.js:87-88 | "abc" has key 0, because no digits are left and the empty result falls back to 0 |
| Text.Compare | frontend/src/App.js:82-84 | the comparison returns -1, 0 or 1, and 0 exactly when the texts are equal |
| Text.CompareAntisymmetric | frontend/src/App.js:82-84 | swapping the operands negates the comparison |
| Text.CompareTransitive | frontend/src/App.js:82-84 | the comparison's "not after" relation is transitive |
| Records.With | frontend/src/App.js:100-106 | the named field takes the typed value; every other field and the id are unchanged |
| Records.FieldsDetermineRecord | frontend/src/App.js:100-106 | two drafts with the same id and the same seven fields are the same draft |
| Records.WithSameValue | frontend/src/App.js:100-106 | typing a field's current value changes nothing |
| Records.WithTwice | frontend/src/App.js:100-106 | typing into the same field twice keeps only the last value |
| Records.DefaultDraft | frontend/src/App.js:150-158 | the reset draft has no id, status pending and today's date, and cannot be submitted |
| Records.DatePart | frontend/src/App.js:143 | the edit-form date is the prefix of the stored date before the first `T`; a date without `T` is kept whole |
| Collection.FirstIndexOf | frontend/src/App.js:140 | `find` returns the first record carrying the id |
| Collection.ReplaceById | frontend/src/App.js:114-116 | the update keeps the length; every record with the id becomes the draft and every other record is unchanged |
| Collection.ReplaceAbsent | frontend/src/App.js:114-116 | updating an id that is not present leaves the collection as it was |
| Collection.ReplaceKeepsUniqueIds | frontend/src/App.js:114-116 | replacing by an id with a draft carrying that id keeps ids unique |
| Collection.RemoveById | frontend/src/App.js:133 | the delete filter leaves a subsequence of the collection with no record carrying the id |
| Collection.RemoveCounts | frontend/src/App.js:133 | a record is dropped exactly when it carries the id; every other record keeps its number of occurrences |
| Collection.RemoveAbsent | frontend/src/App.js:133 | deleting an id that is not present leaves the collection as it was |
| Collection.RemoveUniqueShrinksByOne | frontend/src/App.js:133 | with unique ids, deleting a present id removes exactly one record |
| Collection.RemoveKeepsUniqueIds | frontend/src/App.js:133 | deleting keeps ids unique |
| Collection.SubseqKeepsUniqueIds | frontend/src/App.js:133 | any subsequence of a collection with unique ids has unique ids |
| Collection.AppendKeepsUniqueIds | frontend/src/App.js:121 | appending a record whose id is new keeps ids unique |
| Stats.CountStatus | frontend/src/App.js:55-58 | a count is at most the total; it is 0 exactly when no record has that status and equals the total exactly when all do |
| Stats.ResponseRate | frontend/src/App.js:59-61 | the rate is 0 for an empty collection; otherwise it is the non-pending percentage rounded half up; it lies between 0 and 100, is 100 when nothing is pending and 0 when everything is |
| Stats.Compute | frontend/src/App.js:54-61 | the total is the number of records; each status figure is that status's count; the rate is the response rate of those two figures, so it lies between 0 and 100 with the same edge cases |
| Stats.CountsSumToTotal | frontend/src/App.js:54-58 | when every status is one of the four known ones, the four counts add up to the total |
| Stats.CountAppend | frontend/src/App.js:55-58 | counts over a concatenation add up |
| Stats.CountAfterAppend | frontend/src/App.js:121 | a newly created record raises exactly the count of its own status by one |
| Stats.CountPositive | frontend/src/App.js:55-58 | every record counts towards its own status |
| Stats.ResponseRateExamples | frontend/src/App.js:59-61 | one of one pending gives 0, one of two gives 50, one of four gives 75 |
| Stats.TwoRecordExample | frontend/src/App.js:54-61 | a pending record and an offer give total 2, pending 1, offers 1 and a rate of 50 |
| Filtering.Filter | frontend/src/App.js:64-73 | the filtered list is a subsequence of the collection and every record in it matches the search and the status |
| Filtering.FilterCounts | frontend/src/App.js:64-73 | a record occurs in the filtered list as often as in the collection if it matches, and not at all otherwise |
| Filtering.FilterMembers | frontend/src/App.js:64-73 | a record is shown if and only if it is in the collection and matches |
| Filtering.EmptyTermMatches | frontend/src/App.js:65-68 | an empty search box matches every record |
| Filtering.FilterEverything | frontend/src/App.js:64-73 | an empty search with status "all" shows the whole collection in order |
| Filtering.FilterByStatusOnly | frontend/src/App.js:64-73 | an empty search with one status shows as many records as the dashboard count for that status, all with that status |
| Filtering.FilterNoLonger | frontend/src/App.js:64-73 | filtering never lengthens the list |
| Sorting.KeyOf | frontend/src/App.js:76-97 | a sort label selects its own case; any other value selects the default case |
| Sorting.KeyOfLabel | frontend/src/App.js:76-97 | each of the six labels selects its own comparator |
| Sorting.DescNegatesAsc | frontend/src/App.js:77-94 | each descending comparator is the negation of its ascending one |
| Sorting.CmpAntisymmetric | frontend/src/App.js:76-97 | every comparator is antisymmetric |
| Sorting.CmpTransitive | frontend/src/App.js:76-97 | every comparator's "not after" relation is transitive, so the sort is well defined |
| Sorting.TiesShareClass | frontend/src/App.js:76-97 | two records tied with a third are tied with each other |
| Sorting.InsertPermutes | frontend/src/App.js:75 | inserting one record adds exactly that record |
| Sorting.SortPermutes | frontend/src/App.js:75 | sorting is a permutation of its input |
| Sorting.InsertSorted | frontend/src/App.js:75 | inserting into a sorted list keeps it sorted |
| Sorting.SortedCons | frontend/src/App.js:75 | a record that is not after any record of a sorted list can head it |
| Sorting.SortSorted | frontend/src/App.js:75-98 | the sorted list is ordered by the selected comparator |
| Sorting.InsertKeepsTies | frontend/src/App.js:75 | inserting keeps the relative order of records the comparator ties |
| Sorting.SortStable | frontend/src/App.js:75-98 | sorting keeps the relative order of records the comparator ties (a stable sort) |
| Sorting.SortUnknownKeyKeepsOrder | frontend/src/App.js:95-96 | an unrecognised sort option leaves the filtered order unchanged |
| Sorting.SortedUnique | frontend/src/App.js:75-98 | when no two records tie, two sorted lists holding the same records are equal, so the sorted order is unique |
| Sorting.RevSorted | frontend/src/App.js:77-94 | a list sorted ascending by a column, read back to front, is sorted descending by that column |
| Sorting.DescReversesAsc | frontend/src/App.js:77-94 | for date, company and salary alike, when no two records tie, the descending sort is exactly the reverse of the ascending sort |
| Sorting.CompanyDescReversesAsc | frontend/src/App.js:81-84 | records with different company names: `company-desc` lists them in exactly the reverse order of `company-asc` |
| Seqs.RevCounts | frontend/src/App.js:77-94 | reversing keeps every record, as often as it occurs |
| Sorting.VisibleSpec | frontend/src/App.js:64-98 | the visible list contains exactly the matching records with their multiplicities, is sorted, is stable, and equals the filtered list for an unrecognised option |
| Sorting.SalaryAscExample | frontend/src/App.js:85-89 | salaries "$50,000", "", "$120,000" and "abc" sort ascending as "", "abc", "$50,000", "$120,000"; the two without digits keep their original order |
| Csv.JoinSnoc | frontend/src/App.js:177 | joining one more part appends the separator and that part |
| Csv.JoinSeven | frontend/src/App.js:177 | seven cells joined have the separator between each pair |
| Csv.JoinEight | frontend/src/App.js:177 | eight cells joined have the separator between each pair |
| Csv.Cells | frontend/src/App.js:165-173 | the list built for a record has one cell per header column (the exported line can have more; see Csv.UnquotedSalarySplits) |
| Csv.Lines | frontend/src/App.js:165-173 | there is one line per record, in collection order |
| Csv.TextOfEmpty | frontend/src/App.js:164-177 | an empty collection exports the header line alone |
| Csv.TextSnoc | frontend/src/App.js:165-177 | one more record adds its line at the end of the export and changes nothing before it |
| Csv.TextLayout | frontend/src/App.js:164-177 | the export is the header line followed by a newline and a line for each record, in order |
| Csv.LineLayout | frontend/src/App.js:165-173 | a line quotes company, position, location and notes exactly as typed, and leaves status, date and salary bare |
| Csv.UnquotedSalarySplits | frontend/src/App.js:169-171 | a salary of the form hi,lo is written unquoted, so the line equals the join of eight cells, with hi and lo as two of them |
| Csv.QuotesNotEscaped | frontend/src/App.js:166-172 | two different records can give the same line, because embedded quotes are not escaped |
| Tracker.JobTracker.constructor | frontend/src/App.js:7-23 | the screen starts with no records, an empty search, status "all", newest first, and a closed form holding the default draft |
| Tracker.JobTracker.SetSearchTerm | frontend/src/App.js:236 | the search box sets the search term |
| Tracker.JobTracker.SetFilterStatus | frontend/src/App.js:240 | the status drop-down sets the status filter |
| Tracker.JobTracker.SetSortBy | frontend/src/App.js:248 | the sort drop-down sets the sort option |
| Tracker.JobTracker.OpenAddForm | frontend/src/App.js:256 | the add button opens the form and changes nothing else |
| Tracker.JobTracker.HandleInputChange | frontend/src/App.js:100-106 | the named draft field takes the value; the other fields and the id are unchanged |
| Tracker.JobTracker.ResetForm | frontend/src/App.js:149-161 | the draft returns to the default, the form closes and edit mode ends |
| Tracker.JobTracker.HandleAddApplication | frontend/src/App.js:108-128 | without a company and a position, no request is made and nothing changes. When editing, it sends an update and on success replaces the records with that id. Otherwise it sends a create and on success appends the returned record. Success resets the form; failure changes nothing |
| Tracker.JobTracker.DeleteApplication | frontend/src/App.js:130-137 | on success every record with the id is removed and the rest keep their order; on failure nothing changes |
| Tracker.JobTracker.EditApplication | frontend/src/App.js:139-147 | the first record with the id, with its date cut at `T`, becomes the draft; the form opens in edit mode for that id |
| Tracker.SubmitBlockedWithoutCompany | frontend/src/App.js:108-109 | submitting with an empty company changes nothing, even when the store would succeed |
| Tracker.EditThenCancel | frontend/src/App.js:139-161 | opening a record for editing and cancelling leaves the collection unchanged and the form reset |
| Tracker.EditNotesAndSave | frontend/src/App.js:100-161 | editing a record's notes and saving writes that record back with the new notes and its stored date cut at `T`, leaves every other record unchanged, keeps the length and unique ids, and resets the form |

## Left out

- Loading the collection from the store on start-up (`fetchApplications`, the loading flag and the effect hook, `frontend/src/App.js:35-51`) is not modelled. Network calls have no logic beyond their outcome.
- The login screen (`frontend/src/Login.js`) and the logged-in flag are not part of this model.
- Rendering is not modelled: the JSX markup, the status colours and labels, and the disabled state of the submit button. The disabled button applies the same company-and-position test that `Records.CanSubmit` models.
- The CSV download itself is not modelled: the `data:` URI prefix, `encodeURI`, and the temporary link element. `Csv.Text` is the text after the prefix.
- The CSV date cell is the `localeDate` parameter. Locale and time-zone formatting are outside the model.
- Sorting.Cmp compares dates as text, not as parsed `Date` values. This matches chronological order for same-length `YYYY-MM-DD` dates. The model does not capture the `NaN` comparator of unparsable dates.
- Text.Compare is code-point lexicographic order. `localeCompare` uses the browser's collation, which the model does not capture.
- Text.Lower lower-cases ASCII letters only. JavaScript's `toLowerCase` covers all of Unicode.
- Stats.ResponseRate uses exact integer round-half-up. The source divides and multiplies in floating point before `Math.round`. The two can differ only by floating-point error at exact halves.
- Text.SalaryValue is the value of the digit string as an unbounded integer. `parseInt` loses precision beyond 2^53, and the model does not capture this.
- Records without a `salary` field (the `?.` path) are not modelled, and neither are records missing any other field. Every record in the model has all seven text fields.
- Tracker.JobTracker.EditApplication requires the id to be present. In the source, a missing id throws inside the handler.
- The handlers read state captured at render time. The model runs each handler to completion against the current state, so interleaved requests and stale closures are not captured.
- Deleting or editing a record whose `_id` is undefined is not modelled: ids are `Option<string>`, and the handlers take a `string`.
