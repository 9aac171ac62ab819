# Registration lookup of the Quran memorisation competition

This project models the logic of the competition's registration page,
`src/components/RegistrationPage.tsx`. A participant types their name and
submits it (by the button or the Enter key). The page asks the backend's
`reciters` table for one record whose name contains the trimmed text. It then
shows either the record or a not-found panel. For a found record it also
shows the exam of the record's category, taken from a constant schedule
table. On mount the page also fetches the number of registered reciters for
its statistics panel.

The model has four parts:

- `Schedule` (`schedule.dfy`) models `examSchedule` and `getExamInfo`. The
  table is a sequence of rows in declaration order, which is the order the
  page lists them in. `GetExamInfo` is the corrected lookup: exact string
  equality against the eight labels. The code's own property read also finds
  the names every object inherits from Object.prototype; see Findings. The
  module also proves that the table agrees with the page's hard-coded
  statistics: 8 categories and 4 exam days.
- `Text` (`text.dfy`) models `String.prototype.trim`. The trimming functions
  take the whitespace class as a parameter, and `Trim` fixes it to
  JavaScript's WhiteSpace and LineTerminator characters. The trimmed slice is
  described independently (`TrimmedAt`), and that description is proved to
  determine the result.
- `Registration` (`registration.dfy`) models the view state (`searchTerm`,
  `searchResult`, `searchAttempted`, `isLoading`, `totalStudents`):
  - `SubmitStep`, `SearchStep` and `CountStep` are pure functions on a
    `ViewState` value. They give the state after `handleSearch` up to its
    query, after the search outcome arrives, and after the count outcome
    arrives.
  - `ResultPanelOf` chooses the result panel.
  - The class `RegistrationView` holds the same fields. Its handler methods
    make the updates step by step, and each method's contract ties the new
    state to the matching step function.
  - Backend replies are inputs. A search reply carries `data` and `error`, a
    count reply carries `count` and `error`, and either query can instead
    throw.
- `PrototypeLookup` (`prototype_lookup.dfy`) models the lookup exactly as
  written, as a JavaScript property read. That exposes the finding below.

A failed or thrown count query keeps the previous count (lines 79-82,
85-87). That count is zero only because the count is fetched once, on mount
(lines 67-71). `CountStep` states the first; `FailedCountShowsZero` states
the second.

## Model

| member | source | states |
|---|---|---|
| Schedule.ExamSchedule | src/components/RegistrationPage.tsx:11-60 | the table itself, row for row and string for string in declaration order; its properties are stated by `ScheduleLabelsDistinct`, `StatisticsMatchSchedule` and `GetExamInfo` |
| Schedule.GetExamInfo | src/components/RegistrationPage.tsx:138-140 | a category gets an entry exactly when it is one of the table's labels, and that entry is the one stored for the label; any other string gets none |
| Schedule.LookupIn | src/components/RegistrationPage.tsx:139 | exact-equality lookup in a list of rows: none exactly when no row has the label; otherwise the entry of a row with that label, which is the only such row when labels are distinct |
| Schedule.ScheduleLabelsDistinct | src/components/RegistrationPage.tsx:11-60 | no category label occurs twice in the table |
| Schedule.StatisticsMatchSchedule | src/components/RegistrationPage.tsx:477-488 | the table has 8 rows with 8 distinct labels and 4 distinct Gregorian dates, matching the displayed counts 8 and 4 |
| Schedule.DistinctLabelsCount | src/components/RegistrationPage.tsx:11-60 | a row list with distinct labels has as many labels as rows |
| Text.IsWhitespace | src/components/RegistrationPage.tsx:91 | the characters `trim` removes: ECMA-262's WhiteSpace and LineTerminator classes; the trimming contracts (`TrimBounds`, `TrimUnique`, `Trim`) are stated over it |
| Text.Trim | src/components/RegistrationPage.tsx:91-104 | `.trim()` returns a slice of its input with only whitespace outside it that neither starts nor ends with whitespace |
| Text.TrimBounds | src/components/RegistrationPage.tsx:91 | trimming keeps a slice with only whitespace outside it, and a non-empty slice neither starts nor ends with whitespace |
| Text.TrimUnique | src/components/RegistrationPage.tsx:91 | every slice that meets that description equals the trimmed string, so the description determines trim |
| Text.TrimEmptyIffAllSpace | src/components/RegistrationPage.tsx:91 | the trimmed string is empty if and only if the input is whitespace only |
| Registration.NamePattern | src/components/RegistrationPage.tsx:104 | the pattern `%${term}%` is the term between two `%` wildcards, and the term is recovered from it by dropping the first and last character |
| Registration.SubmitStep | src/components/RegistrationPage.tsx:90-104 | no query is sent exactly when the term is whitespace only; then the result is cleared, the attempted flag is false and loading is untouched. Otherwise the loading and attempted flags are set and the query pattern is the trimmed term between `%` wildcards |
| Registration.SearchStep | src/components/RegistrationPage.tsx:100-119 | loading ends false on every path; a result is stored exactly when the reply has a row and either no error or the `PGRST116` code; any other error and a thrown exception leave no result; term, attempted flag and count are unchanged |
| Registration.CountStep | src/components/RegistrationPage.tsx:73-88 | a reply without error sets the count to the returned count, or to 0 when none is returned; an error or an exception leaves the whole state unchanged; no field but the count ever changes |
| Registration.ResultPanelOf | src/components/RegistrationPage.tsx:219-298 | no panel before an attempt; the not-found panel after an attempt without a result; otherwise the record, with an exam exactly when its category is a table label, and that exam is the label's stored row |
| Registration.InitialConsistent | src/components/RegistrationPage.tsx:63-67 | the initial state is consistent, shows no result panel and is not loading |
| Registration.SubmitKeepsConsistent | src/components/RegistrationPage.tsx:90-98 | a submission made while the controls are enabled keeps "loading implies attempted" and "no attempt implies no result" |
| Registration.BlankSubmitResets | src/components/RegistrationPage.tsx:91-95 | a whitespace-only term sends nothing and returns the view to the unsearched panel |
| Registration.SearchKeepsConsistent | src/components/RegistrationPage.tsx:108-119 | applying a search outcome to a loading, consistent state keeps it consistent and re-enables the controls |
| Registration.CountKeepsConsistent | src/components/RegistrationPage.tsx:73-88 | the count update keeps the state consistent |
| Registration.SearchRoundTrip | src/components/RegistrationPage.tsx:90-120 | a non-blank search sends a query; after its outcome the controls are enabled and the page shows the returned record with its category's exam, or the not-found panel |
| Registration.ThreePartsRecordShowsItsExam | src/components/RegistrationPage.tsx:12-16 | a found record of the three-part category is shown with the 8 August 2025 date and the after-Friday-prayer time |
| Registration.FailureLooksLikeNoMatch | src/components/RegistrationPage.tsx:108-116 | an error other than `PGRST116`, or an exception, shows the same not-found panel as a reply without any row |
| Registration.NoRowsIsNotAnError | src/components/RegistrationPage.tsx:108-112 | a reply with the `PGRST116` code gives exactly the state of the same reply without error |
| Registration.FailedCountShowsZero | src/components/RegistrationPage.tsx:67-82 | starting from the initial state, a failed or thrown count query leaves the displayed count at 0 |
| Registration.RegistrationView.constructor | src/components/RegistrationPage.tsx:63-67 | the component starts in the initial state |
| Registration.RegistrationView.SetSearchTerm | src/components/RegistrationPage.tsx:181 | the input's change handler replaces the term and nothing else |
| Registration.RegistrationView.HandleSearch | src/components/RegistrationPage.tsx:90-106 | the new state and the query sent are those of `SubmitStep` |
| Registration.RegistrationView.ApplySearchOutcome | src/components/RegistrationPage.tsx:100-119 | the new state is the one `SearchStep` gives for the outcome |
| Registration.RegistrationView.ApplyCountOutcome | src/components/RegistrationPage.tsx:73-88 | the new state is the one `CountStep` gives for the outcome |
| Registration.RegistrationView.HandleKeyPress | src/components/RegistrationPage.tsx:122-126 | Enter behaves as a submission; any other key changes nothing and sends nothing |
| PrototypeLookup.PropertyGet | src/components/RegistrationPage.tsx:139 | reading `examSchedule[key]` gives the key's entry exactly for the eight labels, an inherited value only for Object.prototype's property names, and undefined exactly for every other string |
| PrototypeLookup.GetExamInfoAsWritten | src/components/RegistrationPage.tsx:138-140 | the as-written lookup is null exactly when the property read is falsy; otherwise it is that truthy value |
| PrototypeLookup.LabelsAvoidPrototype | src/components/RegistrationPage.tsx:11-60 | no category label is an Object.prototype property name |
| PrototypeLookup.InheritedNameShowsPanel | src/components/RegistrationPage.tsx:297 | "toString" is not a label, yet the as-written lookup is truthy for it, which is the condition on which line 297 renders the exam panel; the corrected lookup gives none |
| PrototypeLookup.AsWrittenAgreesElsewhere | src/components/RegistrationPage.tsx:139 | outside Object.prototype's property names, the as-written lookup and the corrected one agree (the same entry, or null for none); on those names they differ |

## Left out

- Schedule.GetExamInfo: is the corrected lookup, not line 139 as written. For the twelve Object.prototype property names ("toString", "constructor", "__proto__" and the rest) the code returns a truthy inherited value, and this function returns none. The as-written lookup is `PrototypeLookup.GetExamInfoAsWritten`; see Findings.
- Registration.ResultPanelOf: takes the exam from the corrected lookup. For a found record whose category is one of the twelve Object.prototype property names, the page renders the exam panel with empty fields (line 297), while this model shows the record with no exam.

- Rendering is not modelled beyond the choice of result panel: markup, styles, dark mode, icons, the statistics cards, the schedule table rows and the verse panel (lines 142-591). That includes the teacher fallback text (line 266) and the static map link (line 354).
- The backend is not modelled. This covers the `ilike` case-insensitive substring match, `limit(1).single()` and the exact-count head request (lines 75-77, 101-106). A query is represented by the pattern the page sends, and the backend's reply is an input. `%` and `_` inside the term are not escaped and act as wildcards; that is part of the unmodelled `ilike` semantics.
- Asynchrony is not modelled. Each outcome is applied as one step after the submission that caused it. Overlapping requests and a stale reply that arrives after a newer submission are not modelled. The consistency lemmas assume the page's discipline: submissions only while the controls are enabled (lines 190, 197), and outcomes only while loading.
- `formatDate` (lines 128-136) depends on JavaScript `Date` and locale formatting and is never called, so it is not modelled.
- `console.error` logging (lines 80, 86, 109, 115) is not modelled.
- The `Reciter` type is imported from `src/types`, which is not part of this model. The record is given the four fields the page reads, with the identifier as a string.
- Dafny strings are sequences of Unicode scalar values; JavaScript strings are UTF-16 code units. Every label and whitespace character involved is in the Basic Multilingual Plane, so exact equality and trimming agree.

## Findings

| source | as written | input that shows it | evidently intended | confidence | as-written member | corrected member |
|---|---|---|---|---|---|---|
| src/components/RegistrationPage.tsx:139 | `examSchedule[category as keyof typeof examSchedule] \|\| null` is a property read on an object literal; it also finds the literal's inherited Object.prototype members, all truthy | a record whose category is `"toString"` (likewise `"constructor"`, `"__proto__"`, `"valueOf"` and the rest) gets a non-null value, and the exam panel at line 297 is shown with empty fields | null for every string that is not one of the eight labels, as the page's "no schedule" branch assumes | not executed; the property lookup follows ECMA-262, and the bug needs such a category in the stored data | PrototypeLookup.InheritedNameShowsPanel | Schedule.GetExamInfo |
