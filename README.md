# Quiz portal: a Dafny model

This project models the logic of a browser quiz portal written in plain
JavaScript (`js/quiz.js`, `js/main.js`, `js/admin.js`). A student picks a
course from a catalogue of 13, fills in a name and an e-mail address, and
answers 30 multiple-choice questions against a 30-minute countdown. The
questions come from a shuffled question bank, padded with generated filler
questions. Submitting (or running out of time) scores the answers against a
pass mark of 13 and appends a result record to a store in local storage. An
admin page protected by a fixed password lists the stored records newest
first, filters them by course, pass/fail and an inclusive score range, and
exports them as CSV or clears them.

Layout, one module per file:

- `option.dfy` (`Options`): the `Option` type.
- `seqs.dfy` (`Seqs`): first occurrence, `split` on one character, `filter`, `Set` de-duplication and swaps, with their laws.
- `text.dfy` (`Text`): decimal rendering and parsing of numbers, string reversal, JavaScript's `\s` class.
- `quiz_types.dfy` (`QuizTypes`): questions, student info, result records, the session snapshot, pages and the course catalogue.
- `scoring.dfy` (`Scoring`): the score loop, the pass mark, the `mm:ss` countdown text, the `Xm Ys` label and the timer's urgency classes.
- `question_bank.dfy` (`QuestionBank`): `shuffleArray`, `generateSampleQuestions` and `loadQuestions`, with `Math.random` as draw sequences.
- `result_store.dfy` (`ResultStore`): the `quizResults` list as a class `Store` whose methods append and clear.
- `entry.dfy` (`Entry`): the student-form check and the e-mail pattern.
- `student_app.dfy` (`StudentApp`): the class `App`. It holds the page and quiz globals that `js/main.js` and `js/quiz.js` share, and each event handler and each timer firing is a method. It also holds two resume scenarios.
- `admin_view.dfy` (`AdminView`): the password, the filters, the newest-first in-place sort and the course options.
- `csv_export.dfy` (`CsvExport`): the CSV text, the export loop, and a reader that proves the text reads back.
- `admin_panel.dfy` (`AdminPanels`): the class `AdminPanel`. It holds the login flag, the refresh interval, the filter selects and the table rows.

The random draws, the clock and the loaded question bank are parameters.
The store and the session snapshot are in-memory values.

## Model

| member | source | states |
|---|---|---|
| `Scoring.ScoreAnswers` | js/quiz.js:184-189 | the score loop returns the number of the 30 slots holding the question's correct index, between 0 and 30 |
| `Scoring.MatchCountIsCorrectSlots` | js/quiz.js:184-189 | the score equals the size of the set of slots whose answer is the correct option |
| `Scoring.UnansweredScoresZero` | js/quiz.js:186 | a null slot never counts: an all-empty answer sheet scores 0 |
| `Scoring.AllCorrectScoresFull` | js/quiz.js:186 | answering every question correctly scores all 30 |
| `Scoring.TimerTextRoundTrip` | js/quiz.js:172-177 | the `mm:ss` text (floor(t/60) and t%60, each padded to two digits) reads back as exactly t seconds |
| `Scoring.PaddedDigits` | js/quiz.js:176 | `padStart(2, '0')` of a decimal number is a digit string with the same value and no `:` |
| `Scoring.ParseTimeTakenParts` | js/quiz.js:196 | a label `<a>m <b>s` is split at its single space and both numbers are read |
| `Scoring.TimeTakenRoundTrip` | js/quiz.js:193-196 | for a non-negative elapsed time the `Xm Ys` label reads back as that time, so minutes = t div 60 and seconds = t mod 60 |
| `Scoring.UpdateTimerClasses` | js/quiz.js:153-161 | after a tick to t, `danger` is on iff t <= 300; `warning` is on iff t <= 600 and either t > 300 or it was already on |
| `Scoring.TickKeepsUrgency` | js/quiz.js:153-161 | one tick from the classes shown for t + 1 shows the classes for t |
| `QuizTypes.FindCourseName` | js/quiz.js:229 | `courses.find(c => c.id === id).name` is undefined iff no course has that id; otherwise it is the name of the first such course |
| `QuestionBank.ShuffleFrom` | js/quiz.js:271-274 | the remaining swap iterations keep the length |
| `QuestionBank.ShuffleFromPermutes` | js/quiz.js:271-274 | the remaining swap iterations only rearrange their input (same multiset) |
| `QuestionBank.ShufflePermutes` | js/quiz.js:269-276 | the shuffle is a permutation of its input of the same length |
| `QuestionBank.ShuffleFromStep` | js/quiz.js:271-273 | one loop iteration swaps position i with a draw in [0, i] and continues at i - 1 |
| `QuestionBank.CopyOf` | js/quiz.js:270 | `[...array]` is a fresh array with the same elements |
| `QuestionBank.ShuffleArray` | js/quiz.js:269-276 | swapping inside a fresh copy yields the shuffle of the input and a permutation of it; the argument is left unchanged |
| `QuestionBank.SampleQuestions` | js/quiz.js:57-74 | `count` generated questions |
| `QuestionBank.SampleQuestionsShape` | js/quiz.js:62-71 | every generated question has four options and a correct index in [0, 3], taken from the draws in order |
| `QuestionBank.GenerateSampleQuestions` | js/quiz.js:57-74 | the push loop builds questions 1..count exactly as the specification function does |
| `QuestionBank.LoadedQuestionsPadded` | js/quiz.js:43-47 | with fewer than 30 bank entries, the whole shuffled bank and then 30 - n fillers |
| `QuestionBank.LoadedQuestionsShape` | js/quiz.js:33-54 | always exactly 30 questions; with 30 or more entries, the first 30 of the shuffle; with fewer, the shuffled bank and then fillers with 4 options and correct in [0, 3]; on failure, 30 fillers; bank entries are used at most as often as they occur |
| `QuestionBank.LoadQuestions` | js/quiz.js:33-54 | the method (array shuffle, generation loop, slice) yields the specified 30 questions |
| `ResultStore.Store.constructor` | js/quiz.js:249 | the store holds what earlier sessions left |
| `ResultStore.Store.StoreResult` | js/quiz.js:247-255 | exactly one record is appended at the end and the earlier records are unchanged |
| `ResultStore.Store.Clear` | js/admin.js:187 | after removal, later reads give the empty list |
| `Entry.EmailCheckSound` | js/main.js:120-121 | every address the executable check accepts matches `/^[^\s@]+@[^\s@]+\.[^\s@]+$/` |
| `Entry.EmailCheckComplete` | js/main.js:120-121 | every split L@X.Y with non-empty runs of `[^\s@]` passes the executable check |
| `Entry.EmailCheckMatchesPattern` | js/main.js:120-121 | the executable check accepts exactly the strings the regular expression matches |
| `Entry.AcceptedEmailHasOneAt` | js/main.js:120-124 | an accepted address contains exactly one `@` |
| `Entry.CheckStudentForm` | js/main.js:114-124 | an empty field is reported iff a field is empty; an invalid e-mail iff both fields are filled and the pattern fails; acceptance iff the name is filled and the e-mail matches |
| `StudentApp.App.ResultFor` | js/quiz.js:184-235 | the record holds the student's name and e-mail from the snapshot, the catalogue name of the current course, the score in [0, 30], passed iff score >= 13, the `Xm Ys` label of the elapsed seconds, the date and the submission time |
| `StudentApp.App.constructor` | js/main.js:20-21 | the page before load: homepage, no current course, the snapshot that session storage holds, no quiz, and the catalogue of js/main.js:2-17 |
| `StudentApp.App.ShowPage` | js/main.js:81-98 | leaving the quiz page stops the countdown and removes the snapshot; every other transition leaves both alone; afterwards currentPage is the requested page |
| `StudentApp.App.SelectCourse` | js/main.js:101-105 | currentCourse is set and the student form is shown (leaving the quiz page stops the countdown and drops the snapshot); the question, answer and timer state stays |
| `StudentApp.App.StartTimer` | js/quiz.js:145-148 | the display shows the remaining time and the countdown is running |
| `StudentApp.App.BeginQuiz` | js/quiz.js:12-20 | the reset: index 0, 30 fresh null slots, 1800 seconds, the start time, and a running countdown showing 30:00 |
| `StudentApp.App.InitQuiz` | js/quiz.js:9-30 | the state is the reset for exactly the questions that loadQuestions yields |
| `StudentApp.App.StartQuiz` | js/main.js:136-152 | the snapshot {course, studentInfo, startTime} is written, the quiz page is shown and a fresh quiz begins |
| `StudentApp.App.HandleStudentInfoSubmit` | js/main.js:108-133 | a rejected form changes nothing; an accepted one starts the quiz for currentCourse with {fullName, email, course: currentCourse}, on a new answer array, keeping the urgency classes |
| `StudentApp.App.SelectOption` | js/quiz.js:113-123 | only the current slot changes, to the chosen option; re-selecting overwrites |
| `StudentApp.App.SubmitQuiz` | js/quiz.js:180-244 | the countdown stops; it succeeds iff the snapshot and the current course's name exist; success appends exactly the record of ResultFor, removes the snapshot and shows the result page; failure stores nothing; the course, start time, questions, answers and timer display stay |
| `StudentApp.App.GoToNextQuestion` | js/quiz.js:126-142 | an empty slot changes nothing at all; at index 29 the quiz is submitted, and success appends the ResultFor record, removes the snapshot and shows the result page while failure leaves the store, snapshot and page alone; otherwise the index goes up by exactly one, so it stays in [0, 29], and the snapshot is kept; the course, start time and timer display never change |
| `StudentApp.App.CountDown` | js/quiz.js:149-161 | one second less, the `mm:ss` text of the new time, and the urgency classes for it |
| `StudentApp.App.Tick` | js/quiz.js:148-168 | the remaining time drops by exactly one and the display and classes follow; at 0 the interval is cleared and the quiz is submitted, answered or not, with the outcomes of SubmitQuiz (a failed submit leaves the store, snapshot and page alone); the course and start time never change |
| `StudentApp.App.Init` | js/main.js:31-42 | without a snapshot nothing changes; a stored snapshot restarts its quiz from scratch with a new start time (index 0, a new array of empty slots, 1800 s), but currentCourse keeps its old value |
| `StudentApp.App.InitRestoringCourse` | js/main.js:31-42 | the same resume, with currentCourse set to the snapshot's course, after which a submission can succeed; without a snapshot nothing changes |
| `StudentApp.ReloadDuringQuiz` | js/main.js:36-41 | after a reload during a quiz, the page runs the fresh quiz of the snapshot's course on a new answer array with every slot empty and the snapshot's new start time, and can submit iff currentCourse was restored |
| `StudentApp.ResumedQuizLosesResult` | js/main.js:36-41 | after a reload during a quiz, submitting the resumed quiz stores nothing |
| `StudentApp.ResumedQuizKeepsResult` | js/quiz.js:226-237 | with the course restored, the resumed quiz appends one record under the course's name, with score 0 when nothing was answered |
| `AdminView.ReverseInvolution` | js/admin.js:4 | reversing a string twice gives it back |
| `AdminView.AdminPasswordValue` | js/admin.js:2-5 | the password is `portalaxcentra2025` |
| `AdminView.PasswordCheck` | js/admin.js:49 | the exact, case-sensitive comparison accepts a string iff its reverse is the concatenated parts |
| `AdminView.NumberOf` | js/admin.js:147 | Number("") is 0 and any numeric bound is non-negative |
| `AdminView.ScoreRangeRoundTrip` | js/admin.js:147 | `"min-max"` written from two numbers parses back to those two bounds |
| `AdminView.OptionalKeep` | js/admin.js:137-149 | a filter switched off by 'all' is the same as filtering by "off or matches" |
| `AdminView.FilteredIsChain` | js/admin.js:137-149 | each of the three selects filters by "set to all, or the record matches", one after the other |
| `AdminView.SelectedSplits` | js/admin.js:137-149 | a record is selected iff it passes the course and result conditions and the score-range condition |
| `AdminView.FilteredIsSelected` | js/admin.js:137-149 | the chain of three filters is a single filter by the conjunction of the active conditions |
| `AdminView.FilteredSpec` | js/admin.js:129-152 | the result is a subsequence of the stored records in stored order, and holds a record iff it is stored and passes every active filter, with an inclusive score range |
| `AdminView.InsertingStart` | js/admin.js:111 | before an insertion pass, the newest-first prefix plus the new record satisfies the pass invariant |
| `AdminView.InsertingStep` | js/admin.js:111 | swapping the moving record past an older one keeps the pass invariant |
| `AdminView.InPassStart` | js/admin.js:111 | a pass starts with its invariant holding over the unchanged records |
| `AdminView.InPassSwap` | js/admin.js:111 | one swap of the pass keeps the invariant, the multiset of records, and every cell after the one being inserted |
| `AdminView.InPassDone` | js/admin.js:111 | at the end of a pass the prefix is newest first, the records are a permutation and the cells after it are untouched |
| `AdminView.InsertingDone` | js/admin.js:111 | once no older predecessor is left, the prefix is newest first |
| `AdminView.InsertNewest` | js/admin.js:111 | one pass in place extends the newest-first prefix by one record, keeps every record, and leaves the cells after it as they were |
| `AdminView.SortNewestFirst` | js/admin.js:111 | the in-place sort leaves the array ordered by non-increasing timestamp and a permutation of what it held |
| `AdminView.DisplayResults` | js/admin.js:99-126 | the rows are every input record exactly once, newest first |
| `AdminView.CourseNames` | js/admin.js:81 | `results.map(r => r.course)`, position by position |
| `AdminView.UniqueCourses` | js/admin.js:81 | the options contain no duplicates, hold every stored course and only stored courses |
| `AdminView.RestoredFilter` | js/admin.js:89-92 | the previous choice is kept iff it is 'all' or a non-empty name still offered; otherwise the value is 'all' |
| `AdminPanels.AdminPanel.constructor` | js/admin.js:8-11 | the page before load: the session flag as stored, nothing shown, every select on 'all' |
| `AdminPanels.AdminPanel.LoadAdminPanel` | js/admin.js:72-96 | the options are the distinct stored courses, the course choice is restored or reset, and the rows are all stored records newest first; the other selects are unchanged |
| `AdminPanels.AdminPanel.ShowAdminContent` | js/admin.js:30-40 | the content is shown and loaded (the options, the restored course choice, all stored records newest first), and the refresh interval runs; the other selects, the error and the password field stay |
| `AdminPanels.AdminPanel.ShowLoginForm` | js/admin.js:24-27 | the content is hidden; every other field stays |
| `AdminPanels.AdminPanel.CheckAdminLogin` | js/admin.js:14-21 | the content (and refresh) is shown iff the session flag is set, with the options, restored course choice and rows of a load; without the flag nothing changes |
| `AdminPanels.AdminPanel.HandleAdminLogin` | js/admin.js:43-60 | login succeeds iff the entry equals the password; success sets the flag and shows and loads the content; failure keeps the flag, shows the error, clears the field and changes nothing else; the result and score selects stay |
| `AdminPanels.AdminPanel.HandleLogout` | js/admin.js:63-69 | the flag is removed, the refresh interval is cancelled and the login form is shown; the rows, options, selects, error and field stay |
| `AdminPanels.AdminPanel.FilterResults` | js/admin.js:129-152 | the rows are the filtered stored records, newest first; every other field stays |
| `AdminPanels.AdminPanel.ChangeFilters` | js/admin.js:202-204 | a change of a select records the new values and re-filters; the options, flag, error and field stay |
| `AdminPanels.AdminPanel.RefreshTick` | js/admin.js:39 | a refresh lists all stored records again and rebuilds the options and course choice, while the result and score selects keep their values; the flag and visibility stay |
| `AdminPanels.AdminPanel.ExportToExcel` | js/admin.js:155-168 | no file iff the store is empty; otherwise the CSV text of the stored records in storage order |
| `AdminPanels.AdminPanel.ClearAllResults` | js/admin.js:185-191 | after confirmation the store, rows and options are empty and the course select is 'all', the other selects, flag, error and field staying; a declined confirmation changes nothing |
| `CsvExport.CsvBodyAppend` | js/admin.js:166-168 | appending a record appends its line |
| `CsvExport.ExportToExcel` | js/admin.js:155-168 | no file iff there are no records; otherwise the header line and then one line per record in storage order |
| `CsvExport.ParseCellThenRest` | js/admin.js:167 | a quoted or bare cell followed by a comma reads back as its text and then the rest |
| `CsvExport.ParseLastCell` | js/admin.js:167 | the last cell of a line reads back as its text |
| `CsvExport.CellsRoundTrip` | js/admin.js:167 | a line of readable cells reads back as their texts |
| `CsvExport.IntStringPlain` | js/admin.js:167 | a bare score contains no comma, quote or line break |
| `CsvExport.RecordCellsReadable` | js/admin.js:167 | the seven cells of a record without quotes or line breaks are readable and carry its fields |
| `CsvExport.RecordLineRoundTrip` | js/admin.js:167 | such a record's line has no inner line break and reads back as its seven fields |
| `CsvExport.BodyRoundTrip` | js/admin.js:166-168 | the lines read back, in order, as the records' fields |
| `CsvExport.ExportRoundTrip` | js/admin.js:164-168 | the exported text of records without `"` or line breaks reads back, after its header, as each record's fields in storage order |
| `CsvExport.RecordFieldsMeaning` | js/admin.js:167 | the fields are name, e-mail and course; then the score, which parses back to its value; then date and time; then `Pass` iff passed |
| `Seqs.Keep` | js/admin.js:138 | `filter` keeps only elements that pass, and keeps every element that passes |
| `Seqs.KeepIsSubsequence` | js/admin.js:138 | `filter` keeps the stored order |
| `Seqs.KeepKeep` | js/admin.js:137-149 | two filters in a row are one filter by the conjunction |
| `Seqs.Dedup` | js/admin.js:81 | `[...new Set(xs)]` has no duplicates and the same members as xs |
| `Seqs.DedupFirstAppearance` | js/admin.js:81 | the elements come in the order of their first appearance |
| `Seqs.SplitOn` | js/admin.js:147 | `split` yields at least one part and no part contains the separator |
| `Seqs.SplitOnJoin` | js/admin.js:147 | splitting undoes joining with the separator |
| `Seqs.JoinSplitOn` | js/admin.js:147 | joining the parts of a split gives back the input |
| `Seqs.SwapAt` | js/quiz.js:273 | the destructuring swap exchanges two array cells and nothing else |
| `Seqs.SwapPermutes` | js/quiz.js:273 | a swap is a permutation |
| `Text.DecimalRoundTrip` | js/quiz.js:176 | the decimal rendering of a number reads back as that number |
| `Text.IntRoundTrip` | js/admin.js:167 | the rendering of any integer, negative ones included, reads back as it |
| `Text.Reverse` | js/admin.js:4 | `split('').reverse().join('')` puts character i at position n - 1 - i |

## Left out

- DOM rendering: the question display, course cards, result-page text, progress bar, alerts, focus, and the right-click, copy and `beforeunload` guards. The back-button handler of js/quiz.js:298-306 comes down to `ShowPage(Homepage)`, which already stops the countdown and removes the snapshot.
- Local and session storage are in-memory values, and JSON serialisation is not modelled. `fetch` and the JSON parse of a course's question file become the `bank` parameter, which is None when either fails.
- The `.catch` branch of `initQuiz` (js/quiz.js:25-29) also catches a throw in its own continuation, for example `question.options.forEach` on an entry whose `options` is not an array (js/quiz.js:93) or a missing `#timer` element. The model's `Question` type and page always have these, so in the model the branch is never taken; malformed bank entries and a missing page element are not modelled. The asynchronous gap between `startQuiz` and the continuation of `initQuiz` is not modelled either: the continuation runs at once, at the instant `readyMs`.
- Timer scheduling: each firing of the countdown is a call to `Tick`. The admin refresh is a call to `RefreshTick`, and the 30-minute inactivity logout (js/admin.js:215-232) is a call to `HandleLogout`. The global polling loops of js/main.js:158-253 only log or reload the admin panel and are left out.
- js/main.js registers `init` for `DOMContentLoaded` three times (lines 155, 174 and 224). The model runs it once. With a stored snapshot, three registrations would start three countdown intervals, and only the last one can be cleared.
- `Math.random` is replaced by draw sequences. Dates are inputs: the several `new Date()` readings in `submitQuiz` are one instant `nowMs`, and `toLocaleDateString` is the `date` parameter. The file name of the download is not modelled.
- The Blob download and the simulated Google Sheets submission (a `console.log`) have no logic to model.
- `QuestionBank.UpperAscii`: `toUpperCase` is modelled for ASCII letters only.
- `AdminView.NumberOf`: `Number()` is modelled for digit strings and the empty string. Signs, decimals, exponents and surrounding whitespace are read as NaN.
- `AdminView.SortNewestFirst`: an insertion sort stands in for the engine's `Array.prototype.sort`. The contract fixes the order only up to records with equal timestamps, whose relative order is not modelled.
- `CsvExport.ExportToExcel`: the loop accumulates the record lines and the header is prepended at the end. The source starts the string with the header. The text is the same.
- `CsvExport.ExportRoundTrip`: the round trip holds only for text fields without `"` or line breaks. The export follows the layout of section 2 of RFC 4180 (a header line, then double-quoted fields), except that it ends lines with LF and does not double embedded quotes.
- `Scoring.TimeTakenRoundTrip`: stated for non-negative elapsed times. A clock that went backwards yields a negative label, which `JsRem` renders as JavaScript does, but the round trip is not claimed for it.
- `StudentApp.App.SelectCourse`: requires a catalogue course id. The course cards offer only those, and any other id would throw at js/main.js:103 after setting `currentCourse`.
- `StudentApp.App.StartQuiz`: requires a catalogue course id. Any other id would throw at js/main.js:145 after writing the snapshot.
- `StudentApp.App.HandleStudentInfoSubmit`: requires `currentCourse` to be set. The student form is reached only through `selectCourse`.
- `StudentApp.App.Init`: requires a stored snapshot to name a catalogue course. Only `startQuiz` writes the snapshot.
- `StudentApp.App.SubmitQuiz`: when a lookup throws, only stopping the countdown is modelled. The DOM writes made before the throw are not.
- `StudentApp.App.BeginQuiz`: the urgency classes of an earlier quiz are kept, as in the source, which never resets them.
- The `timerText` field starts empty. The timer element's initial markup is not part of the model.

## Findings

| source | as written | input that shows it | evidently intended | confidence | as-written member | corrected member |
|---|---|---|---|---|---|---|
| js/main.js:36-41 | `init` resumes a stored quiz through `startQuiz` but never sets `currentCourse`, which stays `null`. Then `courses.find(c => c.id === currentCourse).name` in `submitQuiz` (js/quiz.js:207, 229) throws, and the result is never stored. | A page reload during a quiz: `activeQuiz` is in session storage and `currentCourse` is `null`. Then the last question is submitted or the countdown reaches 0. | The resumed quiz's result is appended to the store under its course's name. | not executed | `StudentApp.ResumedQuizLosesResult` | `StudentApp.ResumedQuizKeepsResult` |
