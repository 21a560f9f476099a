# SAMIE integration enrolment plugin — a Dafny model

The plugin keeps a Moodle site in step with the SAMIE training-management
database. A synchronisation run (`start_sync`) does the following:
- turns SAMIE training groups into Moodle courses or categories;
- turns specialty modules into courses with one section per specialty and a final test;
- creates Moodle accounts for SAMIE persons;
- enrols them, writing each link back into SAMIE;
- sends three activity reports to SAMIE's importer: access, participants and usage time.

On success each report sets a `jobLastSend<action>DataOKRun` high-water mark. The
run ends with a status line that depends only on the error count.

The model follows `lib.php` part by part:

| file | module | what it holds |
|---|---|---|
| `usage.dfy` | `Usage` | The usage-time aggregator. It covers the hour→turn CASE, `accumulate_time_spent` with its 3600 s cap, and the `prepare_usage_data` scan as a fold with a loop method proved against it. It also covers `get_usage_data`'s `course\|turn\|minutes` report and a parser for it. |
| `report.dfy` | `Report` | `object2string` and `send_sql_data_to_samie`: fields joined with `\|` and rows with `\n`. It also has `call_curl` and the high-water marks. |
| `courses.dfy` | `Courses` | Course naming, `insert_course_section`, and the section loop of `create_module`. |
| `enrolments.dfy` | `Enrolments` | `samie_enrol_user`, and `sync_enrolments` as a fold over the enrolment rows. |
| `links.dfy` | `Links` | The SAMIE link store: the `*_id_lms` columns as one map, plus the SEPE enrolment table. It covers `update_samieenrol_link`, `update_sepe_enrol_link` and the tag routing. |
| `accounts.dfy` | `Accounts` | `sync_user`'s find-or-create and `prepare_sepe_users`. |
| `sync.dfy` | `Sync` | SEPE mode, manual unenrolment, base-URL normalisation and the status line. |
| `platform.dfy` | `Platform` | The Moodle side: courses with their position→section maps and `numsections`, categories, accounts by username, and enrol calls. |
| `text.dfy` | `Text` | String helpers: joins, splitting, decimal rendering, and `str_replace('MF','TF',…)`. |
| `plugin.dfy` | `Plugin` | The plugin object: a class whose fields are updated in place by the methods of a run. |

Whatever the databases, the Moodle API or the network decide is passed in as an argument. That covers:
- the rows each query returns;
- whether a course exists;
- whether an insert, update or transfer succeeds;
- the ids the platform assigns.

With those fixed, every part is deterministic.

Where the code and the documented behaviour disagree, the model follows the code:
- A logout row that carries a course id reopens a session for that course, so the gap between the logout and the next row also counts. In `Usage.TwoSessionsExample` (views at 1000 and 1600, logout at 1500), course 5 gets 10 minutes, not 9.
- `accumulate_time_spent` adds nothing when `start == 0`, even when an end is known.
- Entries whose duration is zero are still reported.
- An empty table reports nothing, because PHP treats `[] == false` as true.

The send path is the one place where the model departs from the code. It uses the corrected `call_curl` described under "## Findings"; "## Left out" names the members this affects.

## Model

| member | source | states |
|---|---|---|
| Usage.TurnOfHour | lib.php:997-1001 | hours 7–14 are turn 0, hours 15–22 are turn 1, and every other hour is turn 2 (each as an if-and-only-if) |
| Usage.Spent | lib.php:903-910 | the time added by one call is at most 3600 s, and it is non-negative when there is no end or the end is not before the start |
| Usage.Accumulate | lib.php:902-921 | with `start <= 0` no key changes; otherwise exactly key (course, turn) grows by the capped time, and a first touch creates it from 0; a well-formed table stays well-formed |
| Usage.AddTurnSeconds | lib.php:914-919 | adding to a turn changes that turn's total by the amount and leaves the other turns alone |
| Usage.AddTurnShape | lib.php:914-916 | a new turn is appended after the existing ones, whose order is kept |
| Usage.AddTurnDistinct | lib.php:914-919 | a course never holds the same turn twice |
| Usage.AddCourseSeconds | lib.php:911-919 | only the (course, turn) entry changes, by the amount |
| Usage.AddCourseShape | lib.php:911-913 | a new course is appended and existing courses keep their order and ids |
| Usage.AddCourseWellFormed | lib.php:911-919 | course ids stay distinct and each course's turns stay distinct |
| Usage.AccumulateSeconds | lib.php:911-919 | the per-key effect of adding to the table, for every key at once |
| Usage.CapExample | lib.php:904-910 | a 5000 s session counts 1200 s, and a session without a start adds nothing |
| Usage.HasCourseAt | lib.php:911 | a course is present exactly when some entry has its id |
| Usage.Aggregate | lib.php:938-978 | the scan yields no table exactly when there are no rows |
| Usage.PrepareUsageData | lib.php:929-983 | the loop over the rows computes the scan's table |
| Usage.Step | lib.php:943-972 | after a row the scan belongs to the row's user; a course row opens a session for its course and turn starting at its time; any other row either closes the session or keeps the same user's open course |
| Usage.AggregateKeys | lib.php:943-975 | every key in the result is a non-sentinel course with a row in that course and turn, so no session is ever opened for course 1; the table is well-formed |
| Usage.RunKeepsKeys | lib.php:941-972 | every state of the scan keeps its table keys tied to the rows read so far |
| Usage.StepKeepsKeys | lib.php:943-971 | each of the flushes in one row's step adds only keys of rows read |
| Usage.FlushKeepsKeys | lib.php:944-946 | a flush adds only the open session's key |
| Usage.RowForGrows | lib.php:941 | a key justified by a prefix of the rows stays justified |
| Usage.AggregateNonNegative | lib.php:1008 | when each user's rows are in time order, as the query orders them, every total is non-negative |
| Usage.RunKeepsOrder | lib.php:941-972 | the open session never starts after the row being read |
| Usage.StepKeepsOrder | lib.php:954-970 | one row's step keeps the session start and end in time order |
| Usage.FlushNonNegative | lib.php:902-910 | flushing an ordered session adds a non-negative time |
| Usage.CourseEntries | lib.php:1022 | one report entry per turn of a course |
| Usage.EntriesAppend | lib.php:1021-1022 | the report lists courses in table order and, within each, turns in table order |
| Usage.EntriesHaveCourse | lib.php:1021 | every entry belongs to a course in the table |
| Usage.TurnSecondsIn | lib.php:1022 | a turn record is present exactly when the lookup gives its total |
| Usage.EntriesAreTotals | lib.php:1021-1042 | an entry (course, turn, s) is reported exactly when s is that key's total; this holds for zero totals too |
| Usage.CeilMinutes | lib.php:1037 | the reported minutes are the least m with s <= 60·m |
| Usage.UsageLines | lib.php:1041 | one line per entry |
| Usage.UsageReport | lib.php:1017-1048 | a report exists only when there were rows and the table is not empty |
| Usage.GetUsageData | lib.php:1017-1048 | the nested loops produce that report |
| Usage.ParseLine | lib.php:1041 | a line has three `\|`-separated fields exactly when it parses |
| Usage.ParseReport | lib.php:1038-1041 | one parse result per `\n`-separated line |
| Usage.UsageLineParses | lib.php:1041 | a rendered line is non-empty, has no newline, and parses back to its course, turn and minutes |
| Usage.RenderRoundTrip | lib.php:1021-1044 | splitting the report at `\n` and parsing each line gives every entry back, in order, with no trailing line |
| Usage.TwoSessionsExample | lib.php:941-975 | two sessions of one user, with a logout in between, report `5\|0\|10` and `7\|1\|0` |
| Text.GuardedJoinIsJoin | lib.php:774-777 | the `if ($string != '')` guard joins with the separator after dropping leading empty values |
| Text.GuardedJoinNoEmpty | lib.php:798-801 | with no empty pieces the guarded join is the plain join |
| Text.SplitJoin | lib.php:770-783 | splitting a join of separator-free pieces gives the pieces back |
| Text.ParseIntToString | lib.php:1041 | decimal rendering of an integer reads back as the same integer |
| Text.ReplaceMFRemovesAll | lib.php:343 | `str_replace('MF','TF',…)` keeps the length and leaves no `MF` behind |
| Text.ReplaceMFIdentity | lib.php:343 | a code without `MF` is unchanged |
| Text.ReplaceMFIdempotent | lib.php:343 | replacing twice is replacing once |
| Report.ObjectToString | lib.php:770-783 | the loop computes the flattened object |
| Report.FlattenSplit | lib.php:770-783 | an object's non-empty fields without `\|` split back from its string |
| Report.FlattenDropsLeadingEmpty | lib.php:773-778 | leading empty field values leave no leading separator |
| Report.Lines | lib.php:796-797 | one line per row |
| Report.PayloadSplit | lib.php:796-802 | the rows' lines split back from the payload at `\n` |
| Report.ImporterUrl | lib.php:803 | the importer URL extends the base URL |
| Report.CallCurl | lib.php:758-761 | a transfer succeeds exactly when curl_exec returned a response |
| Report.CallCurlAsWrittenIgnoresFailure | lib.php:761 | the source's test reports success even when curl_exec fails |
| Report.CallCurlDiffersOnlyOnFailure | lib.php:758-761 | the source's result and the intended result differ exactly on a failed transfer |
| Report.FailedSendMovesMarkAsWritten | lib.php:838-840 | after a failed transfer, the code as written still sets the action's mark to the current time, while the corrected reading leaves every setting as it was |
| Report.SendSqlData | lib.php:791-808 | no rows means success with nothing sent; otherwise the joined rows are posted to the importer and the result is the transfer's under the corrected `call_curl` (see "## Findings") |
| Report.MarkKey | lib.php:839 | the mark key is `jobLastSend`, the action and `DataOKRun` |
| Report.MarkKeyInjective | lib.php:839 | distinct actions have distinct marks |
| Report.AfterSend | lib.php:838-840 | the action's mark is set to now only on success, and every other setting is kept |
| Report.AfterSendOtherAction | lib.php:868-870 | sending one action never moves another action's mark |
| Links.UpdateLink | lib.php:194-209 | a successful UPDATE sets exactly that link, and a failed one changes nothing |
| Links.TagColumnInjective | lib.php:236-257 | exactly the six tags select a column, each its own, and none of them is a course or person link |
| Links.UpdateSamieEnrolLink | lib.php:233-262 | an id <= 0 succeeds with no write; an unknown tag fails with no write; a known tag updates its own column |
| Links.UpdateSamieEnrolLinkFrame | lib.php:233-262 | every other link is kept |
| Links.InsertSepeLink | lib.php:219-223 | a successful insert appends (user, course, role) and touches no link column |
| Links.LinkEnrolment | lib.php:467-477 | a failed write, or one reported as failed, leaves the SAMIE database unchanged |
| Links.LinkEnrolmentRouting | lib.php:467-477 | `SEPE` inserts a SEPE record and writes no link; every other tag leaves the SEPE table alone |
| Enrolments.SamieEnrolUserOutcome | lib.php:457-483 | an enrol call is made unless `enrol_user` throws; the link is written only when a user enrolment id is found; a failed link counts one error; the result is truthy exactly when a call threw or an id was found |
| Enrolments.ThrownCountsAsEnrolled | lib.php:480-482 | a thrown enrolment is returned as a truthy value, although no enrolment was made |
| Enrolments.LookupThrowLeavesUnlinked | lib.php:464-482 | when the lookup after a successful `enrol_user` throws, the user stays enrolled, no link is written, and the caught exception is returned as a truthy value |
| Enrolments.Step | lib.php:576-590 | a course is looked up exactly when its id differs from the previous row's, and that id becomes `lastcourse` |
| Enrolments.StepOutcome | lib.php:576-611 | `enrolmentscount` drops exactly for a missing course or a false context; `counter` rises exactly when samie_enrol_user ran and returned a truthy value; a missing course keeps the previous context and enrolid |
| Enrolments.StepTruthyCount | lib.php:582-607 | each row either calls samie_enrol_user or drops from `enrolmentscount`, and `counter` rises by the truthy calls it adds |
| Enrolments.RunLookups | lib.php:572-611 | over a whole run, the resolved ids are the heads of the runs of equal course ids; calls plus skipped rows equal the row count; `counter` is the number of calls that returned a truthy value |
| Enrolments.RunLookupsFrom | lib.php:574-611 | the same, from any fresh starting state |
| Enrolments.RunHeadsFrom | lib.php:580-581 | the lookups of a run are the heads of its runs of equal course ids |
| Enrolments.RunCountsFrom | lib.php:582-607 | calls plus skipped rows equal the row count, and `counter` counts the truthy calls |
| Enrolments.RunHeadsOfSorted | lib.php:558-559 | for sorted course ids the run heads are strictly increasing and cover exactly the ids |
| Enrolments.OneLookupPerCourse | lib.php:558-559 | for rows ordered by course, the number of lookups is the number of distinct courses |
| Enrolments.StaleContextExample | lib.php:582-586 | after a missing course, later rows with that id reuse the previous course's enrolment instance |
| Enrolments.CourseIds | lib.php:580 | one course id per row |
| Courses.ContainerFor | lib.php:136-143 | a course exactly when `afa_es_cncp` is 0, a category otherwise |
| Courses.GroupCourseName | lib.php:152 | the group name followed by ` (id)` |
| Courses.ModuleIdnumber | lib.php:307 | `AES_` followed by the action id |
| Courses.ModuleIdnumberInjective | lib.php:307-310 | distinct actions never share an idnumber |
| Courses.SpecialtySectionParts | lib.php:332-333 | a specialty section is named `descripcion (codigo)`, and the action id reads back from its summary after `codigo-` |
| Courses.FinalTestSection | lib.php:342-343 | the final test is named `TEST FINAL code`, and its summary is the code with no `MF` left |
| Courses.InsertCourseSection | lib.php:393-419 | position 0 is renamed in place; a later position is inserted and sets `numsections` to the position; success is reported only when every statement succeeded |
| Courses.PlacedSubsequence | lib.php:330-339 | the placed specialties come from the input, and all are placed when every write succeeds |
| Courses.ContiguousStep | lib.php:334-338 | a write at the next free position keeps the layout contiguous |
| Courses.LayoutSpecialtiesContiguous | lib.php:329-340 | the counter is the number of successful writes, and those specialties occupy positions 0..k-1 in source order |
| Courses.LayoutContiguous | lib.php:329-348 | the same, with the final test at position k; no other position is touched, and `numsections` is the last counted position |
| Courses.AddSections | lib.php:327-348 | the section loop computes that layout |
| Platform.LmsUserId | lib.php:625-633 | the account's id, or 0 (false) for an unknown username |
| Platform.NewCourse | lib.php:163-164 | a new course has only section 0, and `numsections` is 0 |
| Accounts.LinkUser | lib.php:271-274 | a person with an id gets the link; without an id nothing is written |
| Accounts.SyncUser | lib.php:674-701 | an existing account is linked and its id returned; otherwise the account is created and linked, or 0 is returned with nothing written when the insert throws |
| Accounts.SyncUserFindsOrCreates | lib.php:680-695 | a non-zero result is the id now held under the username, and other accounts and links are kept |
| Accounts.SyncUserIdempotent | lib.php:680-695 | a second sync of the same person finds the account and creates nothing |
| Accounts.SepeProfile | lib.php:641-664 | the auxiliary profiles: surname `Sepe`, the fixed e-mail, no SAMIE id |
| Accounts.EnsureSepeUser | lib.php:712-726 | a found auxiliary id is kept as is |
| Accounts.EnsureSepeUserEnsures | lib.php:712-726 | one create-if-missing step leaves every other username's account as it was |
| Accounts.PrepareSepeUsers | lib.php:709-726 | an auxiliary account found by username keeps its id |
| Accounts.PrepareSepeUsersEnsures | lib.php:706-728 | each non-zero auxiliary id is the id of that account, and all other accounts are kept |
| Sync.IsSepeMode | lib.php:85-87 | SEPE mode only for a one-letter mode, and then exactly for `A` or `S`; the empty default is not SEPE mode |
| Sync.AllowUnenrolUser | lib.php:109-114 | manual unenrolment is allowed exactly for suspended user enrolments |
| Sync.NormalizeBaseUrl | lib.php:58-62 | no URL when the setting is empty; otherwise the setting with one trailing `/` |
| Sync.NormalizeBaseUrlIdempotent | lib.php:59-62 | normalising twice is normalising once |
| Sync.FinalStatus | lib.php:73-77 | the success line exactly when no error was counted, otherwise the error count |
| Plugin.EnrolPlugin.constructor | lib.php:47-48 | a plugin starts with no errors and no base URL |
| Plugin.EnrolPlugin.Status | lib.php:73-77 | the success line exactly when `errorsfound` is not positive |
| Plugin.EnrolPlugin.CreateStandardCourse | lib.php:150-173 | a taken shortname counts one error and creates nothing; otherwise the course is created in category 1 with section 0 named after the group, and the group is linked |
| Plugin.EnrolPlugin.CreateCourseCat | lib.php:281-298 | a depth-2 category under the configured parent is created and linked; a failed link counts one error |
| Plugin.EnrolPlugin.CreateMoodleCourse | lib.php:136-143 | for `afa_es_cncp == 0`: a taken shortname counts one error and creates nothing, otherwise the group's course is created and linked; for a professional certificate: the depth-2 category under the configured parent is created and linked, and a failed link counts one error |
| Plugin.EnrolPlugin.CreateModule | lib.php:305-353 | a taken code or idnumber counts one error and creates nothing; otherwise the module course is created with its section layout, and the action is linked |
| Plugin.EnrolPlugin.SyncCourses | lib.php:359-383 | groups, then modules; the error count never falls |
| Plugin.EnrolPlugin.SyncUsers | lib.php:424-444 | no error is counted, and the settings, marks and SEPE ids are kept |
| Plugin.EnrolPlugin.PrepareSepe | lib.php:706-728 | the auxiliary ids and accounts are those the preparation computes |
| Plugin.EnrolPlugin.SamieEnrolUser | lib.php:457-483 | the plugin's state after one enrolment, with its errors counted |
| Plugin.EnrolPlugin.SyncEnrolments | lib.php:566-617 | the loop computes the reconciler fold: counter, pending count, enrolments, links and errors |
| Plugin.EnrolPlugin.SendSqlReport | lib.php:813-872 | the rows are posted and the mark moves only on success; with no rows the mark moves and nothing is sent |
| Plugin.EnrolPlugin.SendUsageData | lib.php:877-891 | nothing is sent and no mark moves when there is no usage report; otherwise the report is posted and the mark moves on success |
| Plugin.EnrolPlugin.StartSync | lib.php:47-78 | the SEPE accounts are prepared exactly in mode `A` or `S`, and the SEPE ids change only then; the reports go out only with a base URL, normalised; the status reflects the final error count; the connection flag models the `else` branch at lib.php:69-72 |

## Left out

- The PDO connection and the SQL execution are left out: `db_init`, `get_records_sql`, `insert_sql`, `update_sql` and `get_samie_config`. Their results are arguments: row sequences, success flags and the connection flag. A `get_records_sql` that returns null on failure is not modelled.
- The SQL text is left out: the enrolment UNION, the access and participants GROUP BY queries, and the usage query's filters. Their results are taken as given rows. Only the hour→turn CASE is modelled, as `Usage.TurnOfHour`.
- The high-water mark's use as a query filter is left out. The mark is written, but the queries that read it are not modelled.
- Moodle API calls are oracles: `create_course`, `coursecat::create`, `enrol_user`, `context_course::instance`, `record_exists`, `get_field`, `insert_record`, `get_config` and `set_config`. Exceptions thrown by `create_course`, `coursecat::create` and the link UPDATEs are not modelled. A link UPDATE or INSERT is either done or reported as failed by its success flag; it never aborts the run.
- The model does not cover `call_curl`'s HTTP transport. A transfer is reduced to whether `curl_exec` returned a response.
- `echo` progress output, `studentactionspecialtystat::tostring` and `date()` timestamps are left out. The time a mark records is an argument.
- PHP float arithmetic in `duration / 60` is replaced by integer seconds and an integer ceiling. Float rounding and `-0` are out of scope.
- Usage.Accumulate: the table is a sequence ordered by first touch, as PHP's arrays are, not a map. Turns are the integers the CASE produces, not PHP strings.
- The `$turnfield` switch in `get_usage_data` is left out, because its value is never used.
- Courses.InsertCourseSection: a section is stored in a position→section map, so a failed count update followed by a retry at the same position keeps one section where the database would hold two rows.
- Accounts.SepeProfile: the SEPE profiles carry no `per_password` field. The account therefore gets no password; the `per_id_numero` values meant as passwords are not read.
- Plugin.EnrolPlugin.SyncCourses and Plugin.EnrolPlugin.SyncUsers only promise the error-count relation and that the settings are kept. Each step's effect is stated by the methods they call.
- `instance_deleteable` always returns true and is not modelled.
- Report.SendSqlData models the corrected `call_curl` (see "## Findings"). As written, a non-empty send reports success even when the transfer failed. `Report.FailedSendMovesMarkAsWritten` states what the code as written does then.
- Plugin.EnrolPlugin.SendSqlReport models the corrected `call_curl`. As written, the access and participants marks move after a failed transfer too (lib.php:838-840, 868-870).
- Plugin.EnrolPlugin.SendUsageData models the corrected `call_curl`. As written, the usage mark moves after a failed transfer too (lib.php:884-886), and "with errors" is never printed.
- Plugin.EnrolPlugin.StartSync: `db_init` either returns a PDO object, which is truthy, or throws, and `start_sync` does not catch the exception. So the no-connection branch at lib.php:69-72 never runs in the source. The `connected` flag models that branch as written. The uncaught exception that really ends a run with no database is not modelled.

## Findings

| source | as written | input that shows it | evidently intended | confidence | as-written member | corrected member |
|---|---|---|---|---|---|---|
| lib.php:758-761 | `call_curl` returns `isset($result["EXE"])`; `curl_exec` returns `false` on failure and `isset(false)` is true, so every transfer counts as a success and the high-water mark moves even when nothing reached SAMIE | a transfer where `curl_exec` returns `false` (`Report.ExecFalse`) | success only when `curl_exec` returned a response | not executed | Report.FailedSendMovesMarkAsWritten | Report.CallCurl |
