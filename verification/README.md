# Student progress dashboard: a Dafny model of its state and request logic

This project models the logic core of a React dashboard for tracking
competitive-programming students. It keeps a list of students and a list of
background "processes", the progress entries shown in the navigation bar. It
fetches students, contest histories and solved-problem statistics from a
backend and maps them into the client's records. It adds, edits and deletes
students, switches a student's e-mail reminders, and manages the
server's cron jobs and reminder e-mail template.

The model is functional:

- the store (`src/stores/useStudentStore.tsx`) is an immutable `StoreState` with pure update functions;
- the request layer (`src/lib/requests.ts`) is a set of mapping functions plus fetch functions that take the backend's reply, or a transport failure, as a parameter;
- every asynchronous handler is split at its `await`s into pure steps. A step takes the state it started from, the process list the handler captured when it rendered, the `Date.now()` reading used as the process id, and the settled reply. It returns the next state and, where the handler sends one, the request body.

The JavaScript string operations these files use are modelled in module
`Text`: `trim` and the `\s` class with ECMAScript's whitespace set, `split` on
a character and on `/\s+/`, `join`, `toLowerCase` for ASCII, and `String(n)`
for integers. A Dafny string holds one element per Unicode scalar value, where
a JavaScript string holds one per UTF-16 code unit; the two agree on every
character outside the astral planes (see "## Left out").

Modules, one per source file plus two helpers:

| module | file |
|---|---|
| `Common` | `Option`, `Outcome`, `Failure`, `Filter`, `RemoveKey` (the `filter(p => p.id !== id)` idiom) |
| `Text` | JavaScript string built-ins |
| `Store` | `src/stores/useStudentStore.tsx` |
| `Tracker` | the process-entry idiom every handler repeats |
| `Indicators` | `src/custom-components/ProgressIndicator.tsx`, the Navbar's status list |
| `Navigation` | `src/custom-components/Navbar.tsx`, `src/custom-components/AnimatedTabs.tsx` |
| `Requests` | `src/lib/requests.ts` |
| `StudentTable` | `src/custom-components/StudentTable.tsx` |
| `AddStudentForm` | `src/custom-components/AddStudentFormModal.tsx` |
| `EditStudentForm` | `src/custom-components/EditStudentFormModal.tsx` |
| `RemindersToggle` | `src/custom-components/EmailRemindersToggle.tsx` |
| `Settings` | `src/pages/SettingsPage.tsx` |
| `Profile` | `src/pages/StudentProfile.tsx` |
| `TemplateEditor` | `src/custom-components/EmailTemplateEditor.tsx` |

The search box's handler is created once, on mount, through `useMemo(..., [])`.
It therefore reads the pagination it was created with, and every search
fetches page 1, whatever page the table shows. `StudentTable.SearchQuery`
models that behaviour; a "current page" reading of the handler would not
match the code.

## Model

| member | source | states |
|---|---|---|
| Store.Initial | src/stores/useStudentStore.tsx:101-108 | the store starts with no students and no processes |
| Store.SetStudents | src/stores/useStudentStore.tsx:118 | the student list is replaced and the processes are untouched |
| Store.SetProcesses | src/stores/useStudentStore.tsx:109 | the process list is replaced and the students are untouched |
| Store.AddStudent | src/stores/useStudentStore.tsx:119 | the student is appended after the existing ones, which keep their places |
| Store.UpdateStudent | src/stores/useStudentStore.tsx:120-123 | every student with the id is merged with the patch (set fields win), every other student is unchanged, an absent id changes nothing |
| Store.DeleteStudent | src/stores/useStudentStore.tsx:124-127 | exactly the students without the id remain, and an absent id changes nothing |
| Store.UpdateProcess | src/stores/useStudentStore.tsx:110-113 | every process with the id is merged with the patch and the others are unchanged |
| Store.RemoveProcess | src/stores/useStudentStore.tsx:114-117 | exactly the processes without the id remain and the students are untouched |
| Store.MergeStudents | src/stores/useStudentStore.tsx:120-123 | a position-by-position map that merges only matching ids |
| Store.MergeProcesses | src/stores/useStudentStore.tsx:110-113 | a position-by-position map that merges only matching ids |
| Store.MergeNoChange | src/stores/useStudentStore.tsx:120-123 | spreading an empty patch gives back the student |
| Store.MergeWhole | src/stores/useStudentStore.tsx:120-123 | spreading a whole student replaces every field |
| Store.MergeIdempotent | src/stores/useStudentStore.tsx:120-123 | applying the same patch twice equals applying it once |
| Store.MergeThen | src/stores/useStudentStore.tsx:120-123 | two successive patches equal one combined patch in which the later fields win |
| Store.DeleteStudentIdempotent | src/stores/useStudentStore.tsx:124-127 | deleting twice equals deleting once |
| Store.DeleteStudentKeepsOrder | src/stores/useStudentStore.tsx:124-127 | deletion distributes over concatenation, so survivors keep their order |
| Store.RemoveProcessKeepsOrder | src/stores/useStudentStore.tsx:114-117 | removal distributes over concatenation, so survivors keep their order |
| Store.AddThenDeleteOther | src/stores/useStudentStore.tsx:119-127 | adding a student and deleting another id commute |
| Store.UpdateKeepsIds | src/stores/useStudentStore.tsx:120-123 | a patch that does not set `id` keeps every student's id |
| Tracker.Started | src/custom-components/StudentTable.tsx:88-93 | the captured list followed by one active entry at progress 50 under the clock id |
| Tracker.MarkCompleted | src/custom-components/StudentTable.tsx:95 | entries with the id become completed at 100, the others are unchanged, and a list without the id is returned as it was |
| Tracker.CompletingCapturedDropsEntry | src/custom-components/StudentTable.tsx:87-95 | completing on the list captured before the entry was added gives that list back, so the entry vanishes instead of completing |
| Tracker.CompletingCurrentMarksEntry | src/custom-components/StudentTable.tsx:87-95 | completing on the list that holds the entry leaves the entry in place, completed |
| Indicators.ActiveProcesses | src/custom-components/ProgressIndicator.tsx:13 | exactly the active processes, none of them completed |
| Indicators.ShowsIdle | src/custom-components/ProgressIndicator.tsx:14-16 | the idle branch (and the Navbar's "All processes completed!" line) appears iff no process is active |
| Indicators.BadgeCount | src/custom-components/ProgressIndicator.tsx:59 | the badge is zero iff the idle branch is taken, and equals the list length when all are active |
| Indicators.FilterKeepsNone | src/custom-components/Navbar.tsx:159-168 | the filtered list is empty iff no process is active |
| Indicators.ActiveKeepsOrder | src/custom-components/Navbar.tsx:143 | the shown list of a concatenation is the concatenation of the shown lists, so store order is kept |
| Indicators.ActiveAfterAppend | src/custom-components/ProgressIndicator.tsx:62 | an appended entry is shown last iff it is active |
| Navigation.ActiveTab | src/custom-components/Navbar.tsx:16-21 | home iff the path is "/" or "/home", dashboard iff it starts "/dashboard", settings iff it starts "/settings", otherwise no tab |
| Navigation.PrefixesExclusive | src/custom-components/AnimatedTabs.tsx:30-35 | no path is classified under two rules |
| Navigation.DefaultTabsLeadToThemselves | src/custom-components/AnimatedTabs.tsx:22-28 | the three default tabs have distinct ids and each one's target highlights it |
| Navigation.AtMostOneTabHighlighted | src/custom-components/AnimatedTabs.tsx:60-66 | at most one tab carries the bubble, one does iff the path is classified, and it is the tab whose target is classified alike |
| Navigation.ClassificationExamples | src/custom-components/Navbar.tsx:35-38 | "/homepage" and "/student/1" highlight nothing; prefixes such as "/dashboardX" and "/settings/cron" do |
| Requests.MapToStudent | src/lib/requests.ts:149-169 | each client field comes from its wire field, reminders-disabled is the negation of reminders-enabled, fetched details start empty, and a last-submission date gives one submission |
| Requests.MapToStudentRoundTrip | src/lib/requests.ts:149-169 | the mapping is lossless: the wire record is recovered from every mapped student, and every freshly mapped student comes from its wire record |
| Requests.MapToContest | src/lib/requests.ts:172-178 | the date is the part of the contest time before its first 'T', unsolved is total minus solved, and the rating is the new rating |
| Requests.ContestDateOfIsoTime | src/lib/requests.ts:172-178 | an ISO time "day T time" is mapped to exactly its day |
| Requests.Repeat | src/lib/requests.ts:238-268 | `Array(n)` filled with one value: max(0, n) copies |
| Requests.Expanded | src/lib/requests.ts:238-268 | one item per counted unit of each day, every item made from some day's date |
| Requests.ExpandedConcat | src/lib/requests.ts:238-268 | expanding two runs of days is expanding each and concatenating, so days keep their order |
| Requests.ExpandDays | src/lib/requests.ts:238-268 | the nested loop builds exactly the expansion |
| Requests.MapToProblems | src/lib/requests.ts:238-253 | one unrated problem per accepted submission, dated by its day |
| Requests.MapToSubmissions | src/lib/requests.ts:255-268 | one submission per submission counted, dated by its day |
| Requests.FetchStudents | src/lib/requests.ts:181-203 | a transport error or an unsuccessful reply fails and leaves the store; a successful one replaces the students by their mapping in order and returns the pagination |
| Requests.FetchStudentContests | src/lib/requests.ts:206-235 | a result exactly on a successful reply, with the contests mapped in order and written onto that student, and the rating series, count and average change passed through |
| Requests.ContestsFetchTouchesOnlyContests | src/lib/requests.ts:226-228 | only the contest list of the students with that id changes, and fetching the same reply again changes nothing more |
| Requests.FetchStudentProblems | src/lib/requests.ts:308-384 | success iff the reply is an array of four whose first three succeeded and all carry data; the periods are taken by position; every failure leaves the store |
| Requests.AllTimeSuccessIgnored | src/lib/requests.ts:319-329 | the fourth reply's success flag never changes the outcome |
| Requests.ProblemsFromThirtyDays | src/lib/requests.ts:372-377 | the stored problems and submissions are expanded from the 30-day period |
| Requests.GetTimePeriodData | src/lib/requests.ts:387-403 | "7", "30" and "90" select their period, any other key or missing statistics give nothing |
| StudentTable.HandlePageChange | src/custom-components/StudentTable.tsx:124-128 | the page moves to the requested one iff it lies in 1..totalPages; totals are always kept |
| StudentTable.FooterShownWhenNavigable | src/custom-components/StudentTable.tsx:388-405 | the footer (shown with more than one page) appears on a valid cursor the footer is shown iff one of its buttons can move the page; without it no step is accepted |
| StudentTable.PageChangeKeepsCursorValid | src/custom-components/StudentTable.tsx:124-128 | a valid page stays valid under any page change |
| StudentTable.ButtonsMatchGuard | src/custom-components/StudentTable.tsx:388-405 | Previous is disabled iff stepping back is refused, Next iff stepping forward is refused, and an enabled button moves by one |
| StudentTable.LoadQuery | src/custom-components/StudentTable.tsx:64-74 | the load asks for the shown page, ten rows, no search |
| StudentTable.SearchQuery | src/custom-components/StudentTable.tsx:42-56 | a search asks for page 1 and ten rows, with the term lower-cased character by character |
| StudentTable.SearchIgnoresCase | src/custom-components/StudentTable.tsx:43 | terms that lower-case alike send the same query |
| StudentTable.SettleFetch | src/custom-components/StudentTable.tsx:64-74 | loading ends; only a successful reply changes the pagination and the store |
| StudentTable.CsvRow | src/custom-components/StudentTable.tsx:106-113 | six cells in header order: name, e-mail, the phone or an empty cell when there is none, handle, and both ratings in decimal |
| StudentTable.CsvLines | src/custom-components/StudentTable.tsx:114-116 | the header line then one comma-joined line per student, in store order |
| StudentTable.RatingCellSafe | src/custom-components/StudentTable.tsx:111-112 | a rating cell never holds a comma or a newline |
| StudentTable.RowSafe | src/custom-components/StudentTable.tsx:106-113 | a student without commas or newlines in its text fields gives cells without them |
| StudentTable.CsvReadsBack | src/custom-components/StudentTable.tsx:104-116 | for such students the file splits back into one header line and each student's six cells |
| StudentTable.CommaInNameShiftsColumns | src/custom-components/StudentTable.tsx:114-116 | with no quoting, a comma in a name gives its row seven cells |
| StudentTable.HandleDelete | src/custom-components/StudentTable.tsx:82-102 | one delete alone: a failure keeps the students and leaves the active entry behind the earlier ones; a success removes exactly that student and, when the clock is fresh, writes back the process list as it was before |
| StudentTable.BeginDelete | src/custom-components/StudentTable.tsx:87-93 | the captured list plus one active "Deleting Student with Id" entry; students untouched |
| StudentTable.FinishDelete | src/custom-components/StudentTable.tsx:94-101 | a failure changes nothing; a success writes back the captured list completed and deletes the student |
| StudentTable.FailedDeleteStaysActive | src/custom-components/StudentTable.tsx:98-101 | after a failed delete the students are as before and the entry is still shown as active |
| StudentTable.OverlappingDeletesStrandEntry | src/custom-components/StudentTable.tsx:95 | two overlapping successful deletes leave the first one's entry active for good |
| StudentTable.BeginDeleteSettled | src/custom-components/StudentTable.tsx:87-93 | the current list plus one active entry |
| StudentTable.FinishDeleteSettled | src/custom-components/StudentTable.tsx:94-101 | the entry is completed in the current list on either outcome; a success also removes exactly that student, a failure keeps the students |
| StudentTable.SettledDeleteRestoresIndicator | src/custom-components/StudentTable.tsx:87-101 | whatever the outcome, the entry ends completed after the earlier ones and the indicator shows what it showed before |
| StudentTable.OverlappingSettledDeletesComplete | src/custom-components/StudentTable.tsx:87-101 | two overlapping successful deletes both end completed, in start order |
| AddStudentForm.RequestBody | src/custom-components/AddStudentFormModal.tsx:48-53 | name and handle trimmed; a blank e-mail becomes handle@gmail.com; an empty phone is sent as null, any other trimmed |
| AddStudentForm.RequestBodyIsNormalised | src/custom-components/AddStudentFormModal.tsx:48-53 | every sent text field is already trimmed and the e-mail is never empty |
| AddStudentForm.BlankPhoneSentAsEmpty | src/custom-components/AddStudentFormModal.tsx:51 | a phone of blanks is sent as the empty string, not as null |
| AddStudentForm.HandleSubmit | src/custom-components/AddStudentFormModal.tsx:21-72 | an incomplete form sends nothing; otherwise the body is sent, the dialog closes empty, the captured list is written back completed, and only a created student is appended |
| AddStudentForm.SubmitLeavesProcessesAsFound | src/custom-components/AddStudentFormModal.tsx:59-63 | with a fresh clock id, the processes end exactly as they were captured |
| AddStudentForm.BlankNameIsSent | src/custom-components/AddStudentFormModal.tsx:23-50 | a name of one blank passes the check and is sent as "" |
| AddStudentForm.SubmittableTrimmed | src/custom-components/AddStudentFormModal.tsx:23 | the trimmed check is stricter than the one written |
| AddStudentForm.HandleSubmitTrimmed | src/custom-components/AddStudentFormModal.tsx:23-53 | checked on trimmed fields, every sent request has a non-empty name and handle, and otherwise the handler is unchanged |
| EditStudentForm.InitialForm | src/custom-components/EditStudentFormModal.tsx:20 | the form opens with the student's name, e-mail, phone and handle |
| EditStudentForm.HandleSubmit | src/custom-components/EditStudentFormModal.tsx:22-73 | details first, a changed handle second and only after the first succeeds; an update maps the last reply; a failure leaves the entry active |
| EditStudentForm.EditDropsFetchedDetails | src/custom-components/EditStudentFormModal.tsx:63 | a successful edit empties the student's contests, problems and statistics and takes the reply's id |
| EditStudentForm.FailedEditStaysActive | src/custom-components/EditStudentFormModal.tsx:66-68 | a failed edit leaves its entry in the process list |
| EditStudentForm.UnchangedFormSendsDetailsOnly | src/custom-components/EditStudentFormModal.tsx:55-62 | an untouched form sends exactly the student's details |
| EditStudentForm.ReopenedDialogIsEmpty | src/custom-components/EditStudentFormModal.tsx:70-71 | after a submit the form is empty and a resubmit sends nothing |
| RemindersToggle.StatusLabel | src/custom-components/EmailRemindersToggle.tsx:120-125 | "Updating..." while loading, otherwise "Enabled" iff the switch is on |
| RemindersToggle.HandleToggle | src/custom-components/EmailRemindersToggle.tsx:23-60 | one change alone: the switch unlocks; success completes the entry in place and sets the student's flag to the opposite of the choice; failure keeps the students and leaves the entry active |
| RemindersToggle.BeginToggle | src/custom-components/EmailRemindersToggle.tsx:23-40 | the switch locks, an entry is appended, and the request carries the new value |
| RemindersToggle.FinishToggle | src/custom-components/EmailRemindersToggle.tsx:41-60 | the switch unlocks; only success writes the flag and the completed captured list |
| RemindersToggle.ToggleShowsChoice | src/custom-components/EmailRemindersToggle.tsx:41-44 | after success the stored switch and its label show the chosen value |
| RemindersToggle.NoticeNamesNewState | src/custom-components/EmailRemindersToggle.tsx:53 | for a real flip, the notice read from the old flag names the new state |
| RemindersToggle.ToggleTouchesOnlyFlag | src/custom-components/EmailRemindersToggle.tsx:41-44 | each student is unchanged or differs only in its reminder flag |
| RemindersToggle.FailedToggleStaysActive | src/custom-components/EmailRemindersToggle.tsx:55-60 | a failure keeps the students and leaves the entry active |
| Settings.WithUi | src/pages/SettingsPage.tsx:71-79 | the fetched fields are kept and the two known job names get their title, icon and description |
| Settings.WithUiKeepsConfig | src/pages/SettingsPage.tsx:295-298 | the decoration is undone by dropping it; unknown jobs show their name and "No description" |
| Settings.JobsWithUi | src/pages/SettingsPage.tsx:71-79 | every fetched job is decorated, in order |
| Settings.SetEnabled | src/pages/SettingsPage.tsx:118-120 | every job of that name takes the flag and the others are unchanged |
| Settings.SetCronExpression | src/pages/SettingsPage.tsx:370-377 | every job of that id takes the expression and the others are unchanged |
| Settings.SetEnabledLastWins | src/pages/SettingsPage.tsx:118-120 | two switches in a row equal the last one |
| Settings.ValidateCronExpression | src/pages/SettingsPage.tsx:199-203 | valid iff the expression has exactly five blank-separated words |
| Settings.PlaceholderIsValid | src/pages/SettingsPage.tsx:199-203 | "0 2 * * *" is valid and "0 2 * *" is not |
| Settings.FetchCronJobs | src/pages/SettingsPage.tsx:65-87 | only a successful reply replaces the jobs, and the spinner always stops |
| Settings.UpdateCronSchedule | src/pages/SettingsPage.tsx:89-110 | the expression is sent by job name; success refetches and says so, failure keeps the jobs; other notices are kept |
| Settings.ToggleNotice | src/pages/SettingsPage.tsx:121-133 | success iff the request succeeded; the wording says "enabled" (or "enable") exactly when the switch was turned off |
| Settings.ToggleCronJobStatus | src/pages/SettingsPage.tsx:112-137 | success sets the flag by name; the notice is worded as written |
| Settings.ToggleNoticeContradictsSwitch | src/pages/SettingsPage.tsx:121-133 | switching a job on reports it disabled, or reports a failure to disable |
| Settings.ToggleCronJobStatusIntended | src/pages/SettingsPage.tsx:112-137 | the same handler with notices naming the requested state |
| Settings.IntendedNoticeMatchesState | src/pages/SettingsPage.tsx:121-133 | the intended success notice says enabled iff the job is enabled afterwards |
| Settings.TriggerCronJob | src/pages/SettingsPage.tsx:139-158 | the job is run by name, success refetches, and the notice is keyed by the trigger key |
| Settings.HandlerKeysDistinct | src/pages/SettingsPage.tsx:112-158 | one job's schedule, switch and run keys never collide |
| Settings.ControlsReleasedAfterHandlers | src/pages/SettingsPage.tsx:305-389 | after a handler settles, its control takes input again, subject only to the job's own state |
| Settings.FetchEmailTemplate | src/pages/SettingsPage.tsx:51-63 | only a successful reply replaces the template |
| Settings.SaveEmailTemplate | src/pages/SettingsPage.tsx:160-184 | subject and body are sent, saving ends, and the notice is a success iff the request succeeded |
| Settings.FormatRunTime | src/pages/SettingsPage.tsx:205-223 | a missing time reads "Never", an unparseable one "Invalid date", otherwise the formatted text |
| Profile.FindStudent | src/pages/StudentProfile.tsx:52 | the first student with the id, and nothing iff no student has it or there is no id |
| Profile.FindIgnoresOtherIds | src/pages/StudentProfile.tsx:52 | students with other ids in front do not change the result |
| Profile.FirstChar | src/pages/StudentProfile.tsx:157 | `n[0]` of an empty part contributes nothing |
| Profile.Initials | src/pages/StudentProfile.tsx:157 | a name without spaces gives its first character |
| Profile.InitialsAreWordStarts | src/pages/StudentProfile.tsx:157 | the initials are exactly the characters that follow a space or begin the name |
| Profile.GetRatingColor | src/pages/StudentProfile.tsx:36-44 | always one of the seven palette colours |
| Profile.RatingColorByTier | src/pages/StudentProfile.tsx:36-44 | the colour is the palette entry of the number of thresholds reached, and that number grows with the rating |
| Profile.ReachedMonotone | src/pages/StudentProfile.tsx:36-44 | a higher rating reaches at least as many thresholds |
| Profile.HeatmapClass | src/pages/StudentProfile.tsx:437-443 | always one of the heat classes |
| Profile.HeatmapByLevel | src/pages/StudentProfile.tsx:437-443 | the class is the level's entry, and the level grows with the count |
| Profile.GetCurrentProblemStats | src/pages/StudentProfile.tsx:76-89 | 7 and 90 select their period and every other filter the 30-day one; nothing without statistics |
| Profile.SelectorsAgree | src/pages/StudentProfile.tsx:76-89 | for 7, 30 and 90 the profile's selector agrees with the request layer's |
| Profile.AllBuckets | src/pages/StudentProfile.tsx:94-118 | eighteen buckets |
| Profile.GetRatingDistribution | src/pages/StudentProfile.tsx:94-118 | exactly the non-empty buckets, and none without statistics |
| Profile.DistributionKeepsOrder | src/pages/StudentProfile.tsx:94-118 | the buckets keep their rating order, and all are kept when all are non-empty |
| TemplateEditor.IsHtmlContent | src/custom-components/EmailTemplateEditor.tsx:21-25 | either pattern matches somewhere; a match needs at least three characters and a '<' or an '&' |
| TemplateEditor.PlainTextIsNotHtml | src/custom-components/EmailTemplateEditor.tsx:21-25 | text without '<' or '&' is never taken for HTML |
| TemplateEditor.DetectionExamples | src/custom-components/EmailTemplateEditor.tsx:21-25 | closing tags, entities and upper-case tags are detected; "1 < 2" and an unclosed tag are not |
| TemplateEditor.SyncDetection | src/custom-components/EmailTemplateEditor.tsx:164-166 | the effect sets the flag iff the body is HTML and keeps the template |
| TemplateEditor.BodyChange | src/custom-components/EmailTemplateEditor.tsx:168-170 | the body is replaced and the subject kept |
| TemplateEditor.SubjectChange | src/custom-components/EmailTemplateEditor.tsx:252 | the subject is replaced and the body kept |
| TemplateEditor.EditorLanguage | src/custom-components/EmailTemplateEditor.tsx:277 | "html" iff HTML was detected, otherwise "plaintext" |
| TemplateEditor.EditThenSync | src/custom-components/EmailTemplateEditor.tsx:192 | after a body edit the preview and HTML highlighting appear iff the new body is HTML; a subject edit does not change detection |
| Text.TrimmedSplitLength | src/pages/SettingsPage.tsx:199-203 | splitting the trimmed text on blank runs gives one piece per word, or one empty piece |
| Text.SplitJoin | src/custom-components/StudentTable.tsx:114-116 | joining pieces free of the separator and splitting again gives the pieces back |
| Text.ToLower | src/custom-components/StudentTable.tsx:43 | each character lower-cased, length kept |

## Left out

- HTTP itself: URLs, `encodeURIComponent` and axios are not modelled. Each request is a body value and each reply is a parameter of the step that consumes it.
- `Date.now()`: the process id is a `clock` parameter.
- Debouncing (lodash `debounce`), the three-second notice timers and the toasts: timing is not modelled. Notices are entries of a map that the model never clears.
- React scheduling: the lag between a body edit and the detection effect is modelled by applying `TemplateEditor.SyncDetection` explicitly after the edit.
- `date-fns` formatting, the contest-history date filter and the rating chart's date sort are left out because they depend on the clock and on date parsing. `Settings.FormatRunTime` takes the formatter as a parameter.
- Floating point: `avgRating` and `avgPerDay` are copied through as `real` and never computed; `Math.round` of progress is display only.
- JavaScript numbers are modelled as unbounded integers. Ratings, counts and pages never come near 2^53.
- Requests.MapToStudent: a record is assumed to be well typed; missing or null fields other than phone and title photo are not modelled.
- Profile.FirstChar: takes the first Unicode scalar value of a name part, where JavaScript's `n[0]` takes the first UTF-16 code unit; for a part starting with a character outside the Basic Multilingual Plane the page shows a lone high surrogate and the model the whole character, because Dafny strings have no code-unit view.
- Text.ToLower: lower-cases ASCII letters only; JavaScript's `toLowerCase` also folds non-ASCII letters.
- `insertVariableAtCursor`, the Monaco editor, charts, the heatmap's calendar layout, icons and animation: the editor cursor and layout are outside the logic core.
- The profile page's mount effect only calls `FetchStudentContests` and `FetchStudentProblems`, which are modelled; its loading flags are not.
- Theme toggle, footer, landing page and route table: purely presentational.

## Findings

| source | as written | input that shows it | evidently intended | confidence | as-written member | corrected member |
|---|---|---|---|---|---|---|
| src/custom-components/StudentTable.tsx:95 | completion is written onto the process list captured at render, which lacks the new entry | two deletes started before either finishes, both succeeding | each delete's entry ends completed | not executed | StudentTable.OverlappingDeletesStrandEntry | StudentTable.OverlappingSettledDeletesComplete |
| src/custom-components/StudentTable.tsx:98-101 | the failure path never settles the entry | a delete whose request fails | the entry ends completed, as the add handler's failure path does, and the indicator returns to what it showed before | not executed | StudentTable.FailedDeleteStaysActive | StudentTable.SettledDeleteRestoresIndicator |
| src/pages/SettingsPage.tsx:121-133 | the notices name the opposite of the requested state | switching a job on, with the request succeeding | the notice names the state the job is now in | not executed | Settings.ToggleNoticeContradictsSwitch | Settings.IntendedNoticeMatchesState |
| src/custom-components/AddStudentFormModal.tsx:23-50 | required fields are checked before trimming and sent after | name " " with handle "tourist" | a blank name is refused | not executed | AddStudentForm.BlankNameIsSent | AddStudentForm.HandleSubmitTrimmed |
