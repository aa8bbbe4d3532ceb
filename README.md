# Quiz platform: a Dafny model of its page logic and data-access layer

The system is a web quiz platform. Teachers author quizzes and students join
them with a code, play, and see their results and a leaderboard. Admins
approve teacher accounts. This project models the deterministic rules inside
that system and proves what they promise:

- **Data-access layer** (`src/lib/sqlserver.ts`, `src/lib/actions.ts`). A
  `DatabaseHelper` class keeps a log of the statements it has sent. Each
  statement is recorded as its text plus its named inputs (`@param0`,
  `@param1`, ...). The rows the server answers with are parameters.
  - The `UPDATE ... SET` builders are pure functions over the list of
    defined fields.
  - Positional parameter naming in `query` is a `for` loop over a `Request`
    object, proved against the function `Bindings`.
- **Pages that write to the store** (the quiz authoring page and the join
  page). These are classes whose handlers change their fields and a `Store`
  object, which holds the tables as sequences and a map. Each handler's
  contract states the whole new state.
- **Pages that only compute** (the leaderboard, the student results, the
  admin panel, the teacher's quiz list and the navigation bar). These are
  datatypes and functions, with lemmas for the properties the pages rely on.

Shared helpers are `Text` and `Lists`:
- `Text` holds JavaScript's `trim`, ASCII case mapping, decimal rendering and
  parsing of integers, `padStart` and `includes`.
- `Lists` holds `filter` and the map-where-id-matches idiom.

Modules: `Wrappers`, `Text`, `Lists`, `Schema`, `Badges`, `Store`,
`SqlServer`, `Actions`, `CreateQuiz`, `JoinPage`, `Leaderboard`, `Results`,
`Admin`, `TeacherQuizzes`, `Navigation`.

Two places in the source cannot do what their page evidently intends, and
the model carries both versions of each (see "## Findings"):
- The authoring page calls `db.createQuiz`, which `DatabaseHelper` in
  `src/lib/sqlserver.ts` does not declare. As written, every submit that
  passes validation fails on that call. The intended version inserts the quiz
  row the way `createQuiz` in `src/lib/actions.ts` does: one row under a
  fresh id, and that id is returned.
- The join page asks for an active session, but `createQuizSession` does not
  write `is_active`. Whether a student who joins again resumes their session
  depends on the column's default, which is the store's
  `sessionsActiveByDefault`.

## Model

| member | source | states |
|---|---|---|
| `Text.Trim` | src/app/teacher/create-quiz/page.tsx:79 | `trim` returns a string no longer than its input, with no white space at either end |
| `Text.TrimRemovesOnlySpace` | src/app/teacher/create-quiz/page.tsx:104 | `trim` keeps one contiguous slice of its input and removes only white space before and after it |
| `Text.BlankIffTrimEmpty` | src/app/teacher/create-quiz/page.tsx:90 | `!s.trim()` holds exactly when every character of `s` is white space |
| `Text.ParseNatToString` | src/app/student/results/page.tsx:78 | reading back the decimal rendering of a number gives the number |
| `Text.NatToStringInjective` | src/app/leaderboard/page.tsx:251 | distinct numbers render as distinct decimal strings |
| `Text.ContainsIffOccurs` | src/app/leaderboard/page.tsx:81 | `includes` holds exactly when the search text occurs at some position |
| `Text.LowerForgetsCase` | src/app/leaderboard/page.tsx:81 | lower-casing an upper-cased or lower-cased string gives its lower-cased form |
| `Text.UpperHasNoLowerLetter` | src/app/student/join/page.tsx:24 | an upper-cased code has no lower-case ASCII letter |
| `Lists.Filter` | src/app/teacher/quizzes/page.tsx:116 | `filter` keeps exactly the elements that pass, in their order (a subsequence) |
| `Lists.FilterPartition` | src/app/admin/page.tsx:97-98 | filtering by a test and by its negation splits the list: the multisets add up to the list's |
| `Lists.MapWhere` | src/app/admin/page.tsx:70-74 | the map-where idiom keeps the length, replaces exactly the matching elements and keeps the rest in place |
| `SqlServer.ParamNameInjective` | src/lib/sqlserver.ts:120 | two positions never share a parameter name |
| `SqlServer.LookupBindings` | src/lib/sqlserver.ts:117-124 | `query` binds `params[k]` under `@param{k}` for every position, and nothing under a later position's name |
| `SqlServer.Request.Input` | src/lib/sqlserver.ts:120 | `request.input` adds one named parameter after those already there |
| `SqlServer.DatabaseHelper.Query` | src/lib/sqlserver.ts:117-124 | sends exactly one statement whose inputs are `Bindings(params)` in order, and returns the server's rows |
| `SqlServer.FirstRow` | src/lib/sqlserver.ts:132 | `result[0] \|\| null`: null exactly for an empty result, else the first row |
| `SqlServer.DatabaseHelper.GetProfile` | src/lib/sqlserver.ts:127-133 | one lookup by `@param0 = id`, returning the first row or null |
| `SqlServer.DatabaseHelper.CreateProfile` | src/lib/sqlserver.ts:136-142 | one insert binding the six profile columns in order |
| `SqlServer.DefinedFields` | src/lib/sqlserver.ts:146 | exactly the fields whose value is not `undefined`, in key order |
| `SqlServer.UpdateInputs` | src/lib/sqlserver.ts:150-154 | the inputs are `[id, v0, v1, ...]`, one more than the fields |
| `SqlServer.SetClauseBindsValues` | src/lib/sqlserver.ts:149-154 | id is `@param0`; the k-th assignment names `@param{k+1}`, which holds the k-th defined value; no parameter follows the last |
| `SqlServer.ProfileUpdate` | src/lib/sqlserver.ts:145-156 | no statement exactly when no field is defined; otherwise `UPDATE profiles SET <clause>, updated_at = GETDATE() WHERE id = @param0` with those inputs |
| `SqlServer.DatabaseHelper.UpdateProfile` | src/lib/sqlserver.ts:145-156 | sends `ProfileUpdate` when there is one and nothing otherwise |
| `SqlServer.DatabaseHelper.GetQuizzesByTeacher` | src/lib/sqlserver.ts:159-164 | one lookup by teacher id, returning the rows |
| `SqlServer.DatabaseHelper.GetQuizWithQuestions` | src/lib/sqlserver.ts:167-186 | null, after a single statement, when no quiz row exists; otherwise both lookups and the first quiz row with the questions |
| `SqlServer.DatabaseHelper.CreateQuizSession` | src/lib/sqlserver.ts:189-197 | inserts under the fresh id and returns that same id |
| `SqlServer.DatabaseHelper.GetLeaderboard` | src/lib/sqlserver.ts:200-205 | one lookup by quiz id, returning the rows |
| `SqlServer.HelperSlot.GetDatabaseHelper` | src/lib/sqlserver.ts:209-217 | creates the helper on first use and returns the same helper on every later call |
| `Actions.CreateQuiz` | src/lib/actions.ts:33-42 | inserts the quiz under the fresh id as `@param0` and returns that id |
| `Actions.CreateQuestion` | src/lib/actions.ts:45-54 | inserts the question under the fresh id and returns that id |
| `Actions.CreateAnswer` | src/lib/actions.ts:86-95 | inserts the answer under the fresh id and returns that id |
| `Actions.GetQuizSession` | src/lib/actions.ts:62-69 | one lookup by session id, returning the first row or null |
| `Actions.SessionUpdate` | src/lib/actions.ts:71-83 | no statement exactly when no field is defined; otherwise `UPDATE quiz_sessions SET <clause> WHERE id = @param0` with `[id, ...values]` |
| `Actions.SessionAndProfileUpdatesAgree` | src/lib/actions.ts:76-81 | session and profile updates send a statement for the same updates, share the SET clause and inputs, and only the profile one adds `updated_at` |
| `Actions.UpdateQuizSession` | src/lib/actions.ts:71-83 | sends `SessionUpdate` when there is one and nothing otherwise |
| `Actions.ApprovalStatement` | src/lib/actions.ts:119-127 | the approval update is exactly `is_approved = @param1` (plus the timestamp) with `@param0 = id` |
| `Actions.ApproveTeacher` | src/lib/actions.ts:119-122 | sends one statement setting `is_approved` to true for that id |
| `Actions.RejectTeacher` | src/lib/actions.ts:124-127 | sends one statement setting `is_approved` to false for that id |
| `Store.ActiveSessionsOf` | src/app/student/join/page.tsx:90-93 | the active sessions of this student in this quiz; empty exactly when the table has none |
| `Store.ActiveSessionsAppend` | src/app/student/join/page.tsx:102-106 | a new session joins the active sessions it belongs to, at the end |
| `Store.ActiveQuizzesWithId` | src/app/student/join/page.tsx:31-34 | the active quizzes whose id is the code; empty exactly when there is none |
| `Store.Store.ProfileOf` | src/lib/sqlserver.ts:127-133 | a profile exactly when the user id is present and stored |
| `Store.Store.InsertProfile` | src/lib/sqlserver.ts:136-142 | stores the profile under its id and changes no other table |
| `Store.Store.InsertQuiz` | src/app/teacher/create-quiz/page.tsx:103-111 | appends the quiz row and changes no other table |
| `Store.Store.InsertQuestion` | src/app/teacher/create-quiz/page.tsx:115-118 | appends the question row and changes no other table |
| `Store.Store.InsertSession` | src/lib/sqlserver.ts:189-197 | appends a row with the given id, quiz and student, whose `is_active` is the column default, and changes no other table |
| `Store.Store.LookupQuiz` | src/app/student/join/page.tsx:30-34 | returns the active quizzes with that id and records the lookup |
| `CreateQuiz.AddQuestion` | src/app/teacher/create-quiz/page.tsx:41-50 | appends exactly one question: four empty options, answer 0, 30 seconds; the others are unchanged |
| `CreateQuiz.RemoveQuestionSpec` | src/app/teacher/create-quiz/page.tsx:52-56 | a lone question is never removed; otherwise exactly the questions with that id go and the rest keep their order |
| `CreateQuiz.FilterDropsAtMostOne` | src/app/teacher/create-quiz/page.tsx:54 | with distinct ids the filter drops one question if the id is present and none otherwise |
| `CreateQuiz.RemoveKeepsOthers` | src/app/teacher/create-quiz/page.tsx:52-56 | with distinct ids the list never becomes empty and loses exactly one question when the id is present |
| `CreateQuiz.RemoveSharedIdEmptiesList` | src/app/teacher/create-quiz/page.tsx:54 | two questions sharing an id are removed together, so the list can become empty |
| `CreateQuiz.UpdateQuestion` | src/app/teacher/create-quiz/page.tsx:58-62 | the length is kept, only questions with that id change, and they change by setting the field |
| `CreateQuiz.SetFieldChangesOnlyThatField` | src/app/teacher/create-quiz/page.tsx:60 | setting a field changes that field alone |
| `CreateQuiz.ReplaceOption` | src/app/teacher/create-quiz/page.tsx:67 | the options keep their length and only the option at that index changes |
| `CreateQuiz.UpdateOption` | src/app/teacher/create-quiz/page.tsx:64-70 | only questions with that id change, and only in their options |
| `CreateQuiz.UpdateOptionOutOfRange` | src/app/teacher/create-quiz/page.tsx:67 | an option index outside every question's options leaves the list unchanged |
| `CreateQuiz.TimeLimitInput` | src/app/teacher/create-quiz/page.tsx:251 | `parseInt(v) \|\| 30` is never 0 and is 30 for text that is not a number |
| `CreateQuiz.TimeLimitInputRoundTrip` | src/app/teacher/create-quiz/page.tsx:251 | the rendering of a positive limit reads back as that limit, and an empty field as 30 |
| `CreateQuiz.MessageInjective` | src/app/teacher/create-quiz/page.tsx:79-98 | distinct validation failures give distinct messages, so a message names its rule and its question |
| `CreateQuiz.QuestionError` | src/app/teacher/create-quiz/page.tsx:89-98 | a question yields no error exactly when it is complete |
| `CreateQuiz.FirstIncomplete` | src/app/teacher/create-quiz/page.tsx:88-99 | the first incomplete question: all before it are complete |
| `CreateQuiz.ValidateIffComplete` | src/app/teacher/create-quiz/page.tsx:79-99 | validation passes exactly when the title is non-blank, there is a question and every text, option and time limit is valid |
| `CreateQuiz.ValidateReportsFirstFailure` | src/app/teacher/create-quiz/page.tsx:79-98 | title first, then question count, then the first failing question, checking its text, then its options, then its time limit |
| `CreateQuiz.AddedQuestionBlocksSubmit` | src/app/teacher/create-quiz/page.tsx:41-50 | a freshly added blank question stops submission, and on a complete form it is the one reported |
| `CreateQuiz.FirstIncompleteIs` | src/app/teacher/create-quiz/page.tsx:88-99 | the question the loop stops at is the first incomplete one |
| `CreateQuiz.ValidateQuiz` | src/app/teacher/create-quiz/page.tsx:79-99 | the validation loop returns the error of `Validate` |
| `CreateQuiz.TrimAll` | src/app/teacher/create-quiz/page.tsx:117 | every option trimmed, in place |
| `CreateQuiz.QuestionRows` | src/app/teacher/create-quiz/page.tsx:114-119 | one row per question |
| `CreateQuiz.QuestionRowsOrdered` | src/app/teacher/create-quiz/page.tsx:114-119 | rows get `order_index` 1..n in list order, with trimmed text and options and the same answer and limit |
| `CreateQuiz.CompleteQuestionRow` | src/app/teacher/create-quiz/page.tsx:117 | a valid question gives a row with non-empty text and options and a limit in 5..300 |
| `CreateQuiz.ValidFormGivesCompleteRows` | src/app/teacher/create-quiz/page.tsx:88-119 | after validation every stored question row has non-empty text and options and a limit in 5..300 |
| `CreateQuiz.InsertQuestionRows` | src/app/teacher/create-quiz/page.tsx:114-119 | appends one question row per question, in list order, numbered from 1, and touches no other table |
| `CreateQuiz.QuestionRowsSnoc` | src/app/teacher/create-quiz/page.tsx:114-119 | the rows of a longer prefix are those of the shorter one plus the next row |
| `CreateQuiz.CreateQuizPage.constructor` | src/app/teacher/create-quiz/page.tsx:27-39 | empty title and description, one blank question with id '1', no error |
| `CreateQuiz.CreateQuizPage.HandleSubmit` | src/app/teacher/create-quiz/page.tsx:72-127 | the intended submit, with `db.createQuiz` inserting the quiz row: on a failed check its message is shown and nothing is stored; otherwise one draft quiz row with `total_questions` = n, then the n question rows in order, then a redirect; never left submitting |
| `CreateQuiz.SubmitErrorAsWritten` | src/app/teacher/create-quiz/page.tsx:77-123 | as written every submit ends with a message: the first broken rule's, or, for a form that passes, the `TypeError` of the missing `db.createQuiz` |
| `CreateQuiz.SampleFormIsComplete` | src/app/teacher/create-quiz/page.tsx:79-99 | a form with a title and one filled-in question passes every check |
| `CreateQuiz.CompleteFormFailsAsWritten` | src/app/teacher/create-quiz/page.tsx:101-123 | as written, every form that passes the checks (the sample form among them) ends with the `db.createQuiz` error |
| `CreateQuiz.CreateQuizPage.HandleSubmitAsWritten` | src/app/teacher/create-quiz/page.tsx:72-127 | as written: the message of `SubmitErrorAsWritten` is shown, the form and the redirect are unchanged, and nothing is stored |
| `JoinPage.JoinPrecheck` | src/app/student/join/page.tsx:60-66 | passes exactly with a quiz found and a non-blank nickname; a missing quiz is reported before a blank nickname |
| `JoinPage.SubmitEnabledIffPrecheckPasses` | src/app/student/join/page.tsx:194 | the button is enabled exactly when no join is under way and the checks of `handleJoin` pass |
| `JoinPage.StudentProfile` | src/app/student/join/page.tsx:74-81 | role 'student', approved, trimmed nickname as full name, no avatar, `email \|\| ''` |
| `JoinPage.JoinSession` | src/app/student/join/page.tsx:89-108 | resume the first active session of this student in this quiz, else add one new session that is active exactly when the column default makes it so |
| `JoinPage.JoinAddsAtMostOne` | src/app/student/join/page.tsx:89-108 | for any default, a join keeps every session, adds at most one, and sends the student to a session of theirs in this quiz |
| `JoinPage.JoinLeavesOneTarget` | src/app/student/join/page.tsx:89-108 | when new sessions start active: afterwards there is an active session, the student goes to the first, and at most one was added |
| `JoinPage.RejoinResumes` | src/app/student/join/page.tsx:95-99 | when new sessions start active: joining a second time creates nothing and leads to the same session |
| `JoinPage.RejoinDuplicatesWhenInactiveByDefault` | src/lib/sqlserver.ts:189-197 | when new sessions do not start active: a student who joins twice gets two sessions and is sent to the second |
| `JoinPage.JoinPage.constructor` | src/app/student/join/page.tsx:17-21 | empty code, nickname and error; no quiz; not joining |
| `JoinPage.JoinPage.HandleCodeChange` | src/app/student/join/page.tsx:23-52 | stores the upper-cased code; under 6 characters clears quiz and error without a lookup; otherwise looks up the raw code and reports a miss only at exactly 6 |
| `JoinPage.JoinPage.HandleJoin` | src/app/student/join/page.tsx:54-114 | ordered checks; profile created only when missing; no user id ends in the profile error; resume or create exactly one session (with the store's `is_active` default) and redirect; never left joining |
| `Leaderboard.Percentage` | src/app/leaderboard/page.tsx:63 | 0 when the total is 0; otherwise the percentage times the total is 100 times the score; between 0 and 100 for a valid score |
| `Leaderboard.DisplayName` | src/app/leaderboard/page.tsx:59 | a missing or empty nickname shows as 'Anonymous' |
| `Leaderboard.FormatLeaderboard` | src/app/leaderboard/page.tsx:57-64 | one entry per row, in row order |
| `Leaderboard.FormatEntryKeepsRow` | src/app/leaderboard/page.tsx:57-64 | title, score, totals and time are copied; 'Anonymous' shows exactly for a missing, empty or literal 'Anonymous' name |
| `Leaderboard.FilterLeaderboard` | src/app/leaderboard/page.tsx:74-84 | the result is a subsequence of the entries |
| `Leaderboard.BlankFilterKeepsAll` | src/app/leaderboard/page.tsx:75-78 | a filter that trims to nothing shows every entry unchanged |
| `Leaderboard.FilterKeepsExactlyMatches` | src/app/leaderboard/page.tsx:80-82 | a non-blank filter keeps exactly the entries whose lower-cased title contains the lower-cased, untrimmed filter |
| `Leaderboard.UpperKeepsBlank` | src/app/leaderboard/page.tsx:75 | upper-casing a filter does not change whether it is blank |
| `Leaderboard.FilterIgnoresCase` | src/app/leaderboard/page.tsx:81 | an upper-cased filter shows the same entries as the filter as typed |
| `Leaderboard.RankLabelInjective` | src/app/leaderboard/page.tsx:251 | two positions never share a rank label |
| `Leaderboard.RankPresentationAgrees` | src/app/leaderboard/page.tsx:242-251 | exactly the first three positions are highlighted and carry '1st'/'2nd'/'3rd'; later ones read '#'+(i+1); only position 0 has the default badge and only 0 and 1 are not 'outline' |
| `Results.ToResults` | src/app/student/results/page.tsx:54-65 | one result per row, in row order |
| `Results.FromResults` | src/app/student/results/page.tsx:54-65 | the flat row of every result, in order |
| `Results.ResultsRoundTrip` | src/app/student/results/page.tsx:54-65 | the reshaping loses and reorders nothing: flattening gives back the rows |
| `Results.JsRem` | src/app/student/results/page.tsx:77 | JavaScript's `%`: the remainder has the sign of the dividend and is below the divisor in size |
| `Results.IndexOfColon` | src/app/student/results/page.tsx:78 | the position of the first ':' |
| `Results.SecondsField` | src/app/student/results/page.tsx:78 | seconds below 60 are two digits that read back as the seconds |
| `Results.ParseTimeOfFields` | src/app/student/results/page.tsx:78 | minutes, ':' and two digits read back as 60 times the minutes plus the seconds |
| `Results.FormatTimeRoundTrip` | src/app/student/results/page.tsx:75-79 | for s ≥ 0 the text is the whole minutes, ':' and two digits of seconds below 60; 60·mins + secs = s, and the text reads back as s |
| `Results.PercentAtLeast` | src/app/student/results/page.tsx:82-83 | the percentage reaches a bound exactly when 100·score reaches bound·total |
| `Results.ScoreColor` | src/app/student/results/page.tsx:81-86 | green from 80% up, yellow from 60% to below 80%, red below 60%, both thresholds inclusive |
| `Results.ScoreBadgeVariant` | src/app/student/results/page.tsx:88-93 | 'default' from 80% up, 'secondary' from 60% to below 80%, 'destructive' below 60% |
| `Results.ColorAndBadgeAgree` | src/app/student/results/page.tsx:81-93 | the colour and the badge of a score always fall in the same band |
| `Results.BandsAreMonotone` | src/app/student/results/page.tsx:81-86 | a better score never falls in a lower band |
| `Admin.UpdateApproval` | src/app/admin/page.tsx:70-74 | the length is kept; only teachers with that id change, and only in `is_approved` |
| `Admin.ApprovalAttempt` | src/app/admin/page.tsx:56-80 | the list changes only when the store accepted the update; `updating` is cleared either way |
| `Admin.PartitionSplitsTeachers` | src/app/admin/page.tsx:97-98 | pending and approved each keep the list's order, hold only their own kind, and together hold every teacher once |
| `Admin.ApprovalMovesOnlyThatTeacher` | src/app/admin/page.tsx:70-98 | after an update that teacher is listed as approved exactly when approved, and every other teacher stays where it was |
| `Admin.ApprovalIdempotent` | src/app/admin/page.tsx:70-74 | applying the same decision twice is applying it once |
| `TeacherQuizzes.CountAsWritten` | src/app/teacher/quizzes/page.tsx:72-73 | the count is the array's length, or 0 for a value that is not an array |
| `TeacherQuizzes.CountAsWrittenIgnoresNumber` | src/app/teacher/quizzes/page.tsx:61-73 | on the count aggregate's reply the page's count is 1 whatever the number of rows |
| `TeacherQuizzes.Count` | src/app/teacher/quizzes/page.tsx:72-73 | 0 for a value that is not an array |
| `TeacherQuizzes.CountReadsAggregate` | src/app/teacher/quizzes/page.tsx:61-73 | the corrected count reads back the number the aggregate holds |
| `TeacherQuizzes.ToQuizzes` | src/app/teacher/quizzes/page.tsx:70-74 | with the corrected count of "## Findings": one quiz per row, in row order |
| `TeacherQuizzes.ToQuizzesKeepsRows` | src/app/teacher/quizzes/page.tsx:70-74 | with the corrected count of "## Findings": every column but the counts is copied, and the counts are the numbers of related rows |
| `TeacherQuizzes.AsWrittenListShowsOne` | src/app/teacher/quizzes/page.tsx:70-74 | as written each quiz is listed with 1 question and 1 session; the corrected row differs from it only in the two counts |
| `TeacherQuizzes.ToggleQuiz` | src/app/teacher/quizzes/page.tsx:93-97 | only quizzes with that id change, and they get `is_active = !currentStatus` |
| `TeacherQuizzes.ToggleTwiceRestores` | src/app/teacher/quizzes/page.tsx:84-101 | toggling with the shown status and then again with the new one restores the list |
| `TeacherQuizzes.DeleteQuiz` | src/app/teacher/quizzes/page.tsx:116 | removes exactly the quizzes with that id and keeps the rest in order |
| `TeacherQuizzes.DeleteCountsRemoved` | src/app/teacher/quizzes/page.tsx:116 | the list shrinks by the number of quizzes with that id |
| `TeacherQuizzes.ToggleAttempt` | src/app/teacher/quizzes/page.tsx:84-101 | a store error records its message and leaves the list; success toggles |
| `TeacherQuizzes.DeleteAttempt` | src/app/teacher/quizzes/page.tsx:103-120 | nothing happens without confirmation; a store error records its message and leaves the list; success deletes |
| `Navigation.MenuExtendsBase` | src/components/layout/Navigation.tsx:48-61 | without a profile the three base entries; with one the base entries then the role's own; an unknown role adds nothing |
| `Navigation.MenusHaveDistinctHrefs` | src/components/layout/Navigation.tsx:22-41 | every menu links each page once |
| `Navigation.AtMostOneActive` | src/components/layout/Navigation.tsx:98 | an entry is active exactly when the path is its link, so at most one entry is active |
| `Navigation.RoleBadgeOf` | src/components/layout/Navigation.tsx:63-77 | no badge exactly without a profile or with an empty role |
| `Navigation.BadgeLabelIsRole` | src/components/layout/Navigation.tsx:74 | the label is the role with its first character upper-cased and the rest as is |
| `Navigation.KnownRoleBadges` | src/components/layout/Navigation.tsx:66-74 | 'Admin' destructive, 'Teacher' default, 'Student' secondary; any other role has no variant |

## Left out

- Database and network I/O. This covers the connection pool, `getConnection` and the mssql config. The SQL semantics of the query texts (JOIN, ORDER BY, TOP) are left out too. Query results are parameters of the model, and the pages' tables are sequences in `Store`.
- Thrown store errors and rejected promises. Where a page distinguishes a store failure, the failure is a parameter (`storeAccepted`, `storeError`).
- Authentication. The user id and email the pages read from the auth context are parameters.
- `crypto.randomUUID()`, `Date.now()` and `GETDATE()`. Fresh ids are parameters; timestamps are not modelled.
- The query that fills the leaderboard, the results list, the admin list and the quiz list. Their rows are given.
- `JSON.stringify` of the options and `toISOString` of dates. Options are kept as trimmed strings; dates as given text.
- Floating point. Percentages are exact reals, and the result bands require a positive total, because the source divides by it unguarded. `toFixed`, `Math.round` and date formatting are left out.
- Case mapping and trimming beyond ASCII. `trim` removes ASCII white space, the no-break space and the byte-order mark; other Unicode spaces are not handled.
- `parseInt`: decimal input only. The hexadecimal prefix and digits beyond the safe integer range are not modelled.
- Concurrency. Stale closures and last-write-wins between state setters are not modelled; each handler runs to completion on the state it started from.
- The delegating actions `getProfile`, `createProfile`, `updateProfile`, `getQuizzesByTeacher`, `getQuizWithQuestions`, `createQuizSession`, `getAnswersBySession`, `getLeaderboard` and `getAllProfiles` in `src/lib/actions.ts`. Each only forwards to a modelled helper method or to a single `query`.
- `CreateQuiz.CreateQuizPage.HandleSubmit` numbers questions by list position. The source uses `questions.indexOf(q) + 1`. The two agree because every question in the editor is a distinct object.
- `CreateQuiz.QuizRow` records the quiz as not active. The authoring page never sets `is_active` on a quiz, and the column default for quizzes is not part of this model. The default for sessions is, as `sessionsActiveByDefault`.
- `CreateQuiz.SubmitErrorAsWritten` uses the wording V8 gives the `TypeError` of calling a missing method; other JavaScript engines word it differently.
- `Navigation.RoleVariant` treats every role other than admin, teacher and student as having no variant. The source's lookup on an object literal could also find an inherited property for a role such as 'toString'.
- UI rendering, icons, routing and effect wiring. A redirect is the `redirect` field of a page.

## Findings

| source | as written | input that shows it | evidently intended | confidence | as-written member | corrected member |
|---|---|---|---|---|---|---|
| src/app/teacher/quizzes/page.tsx:61-73 | `questions_count` and `sessions_count` are the length of the embedded `questions(count)` / `quiz_sessions(count)` value | a quiz with 5 questions: the count aggregate answers `[{count: 5}]`, whose length is 1, so the list shows 1 (and also 1 for a quiz with no questions) | the number held by the aggregate, 5 | medium, not executed | `TeacherQuizzes.CountAsWrittenIgnoresNumber` | `TeacherQuizzes.CountReadsAggregate` |
| src/app/teacher/create-quiz/page.tsx:101-111 | `handleSubmit` calls `db.createQuiz`, which the helper from `getDatabaseHelper` (src/lib/sqlserver.ts:109-206) does not declare | title "Quiz" and one question "Q" with options a, b, c, d and 30 seconds: every check passes, the call throws a `TypeError`, and the page shows "db.createQuiz is not a function", stores nothing and does not redirect | insert the quiz row as `createQuiz` in src/lib/actions.ts does, then its question rows, then go to the quiz list | high, not executed | `CreateQuiz.CompleteFormFailsAsWritten` | `CreateQuiz.CreateQuizPage.HandleSubmit` |
| src/lib/sqlserver.ts:189-197 | `createQuizSession` does not write the `is_active: true` the join page passes (src/app/student/join/page.tsx:102-106), so a new session's `is_active` is the column default | a student with no session joins a quiz twice while that default is not active: the `is_active = 1` lookup misses the first session, so a second one is created and the student is sent to it | the new session is active, so the second join resumes the first | low, not executed: the table's default is not part of the source | `JoinPage.RejoinDuplicatesWhenInactiveByDefault` | `JoinPage.RejoinResumes` |
