# Sun Grid Engine JGDI plug-in, modelled in Dafny

This project models the core of the JGDI plug-in. The plug-in connects a workflow
orchestrator to a Sun Grid Engine cluster. It submits jobs by running `qsub` and reads
the job id back from qsub's answer. It lists the active jobs that match a request of
complex variables, working out the state of every array task. It answers questions about
finished jobs from one of two backends. The local backend is a thread that tails the
scheduler's accounting file into an embedded database. The external one is the ARCo SQL
database, reached through a pool of five connections. The plug-in also deletes jobs,
checks every 15 seconds that the master is alive, and turns JGDI events into normalised
lifecycle events.

The files:

- `optional.dfy` holds Option.
- `java_text.dfy` holds the parts of `String`, `StringTokenizer`, `Integer`/`Long` and
  `Boolean` the code relies on: trim, split, tokens, indexOf, parseInt and printing.
- `grid_types.dfy` holds the reports and events that cross the plug-in's boundary.
- Each core source file has one module:
  - `JGDIJobModListener.java` → `job_mod_listener.dfy`;
  - `JGDIJobFinishListener.java` → `job_finish_listener.dfy`;
  - `FinishedJobRecord.java` → `finished_job_record.dfy`;
  - `SGEAccountingThread.java` → `sge_accounting_thread.dfy`;
  - `ARCODatabase.java` → `arco_database.dfy`.
- `JGDIPlugin.java` is split in two:
  - `jgdi_submission.dfy` models `submitJob`;
  - `jgdi_plugin.dfy` models the plug-in object and its other operations.

Objects whose fields change become classes, and loops become methods with invariants. Each
method is proved equal to a function that specifies it, and the lemmas state the
properties of those functions. Here is what the model takes as inputs:

- JGDI, the processes and the clock: what the master answers, what a process writes, what
  `readLine` returns and what time it is;
- the database and the file system: whether a connection opens, whether a query fails, and
  the length of the accounting file;
- how many times a connection attempt succeeds or fails.

The source's own oddities are kept in the model and proved as lemmas:

- Validation failures count as attempts. Turns where the master is down, or where qsub
  cannot reach the service, do not.
- The local lookup answers NOT_FOUND instead of null.
- `cleanup` compares END_TIME with the length of the window, not with a point in time.
- The end time adjusted by the CPU time is computed but never stored.
- In `releaseConnection`, a failed reopen returns without giving back the permit. A failed
  `isClosed()` gives back two permits.

`submitJob` sleeps 2 s before the second attempt and doubles the sleep from the third
attempt on: 2000, 4000, 8000 and 16000 ms before attempts 2 to 5
(`Submission.SleepsFollowBackoff`, `Submission.FiveCountedAttempts`).

## Model

| member | source | states |
|---|---|---|
| GridTypes.NewJobInfo | src/jgdiplugin/JGDIPlugin.java:522 | a fresh report carries the job id, no state and no complex variables |
| JavaText.JavaStr | src/jgdiplugin/JGDIPlugin.java:252-256 | appending a null string writes "null", and a non-null one writes itself |
| JavaText.IndexOf | src/jgdiplugin/JGDIPlugin.java:526-529 | the result is -1 exactly when the character is absent; otherwise it is the position of the first occurrence |
| JavaText.IndexOfAfter | src/jgdiplugin/JGDIPlugin.java:526-529 | in `a + [c] + b` with no `c` in `a`, the first `c` sits at `|a|` |
| JavaText.Trim | src/jgdiplugin/JGDIPlugin.java:411-420 | trim gives the input less its leading and trailing characters `<= ' '`: a piece of the input with only such characters before and after it, and none at its own ends |
| JavaText.TokensAppend | src/jgdiplugin/JGDIPlugin.java:305-310 | tokenising two strings joined by a delimiter gives the tokens of each, in order |
| JavaText.TokensOfWord | src/jgdiplugin/JGDIPlugin.java:305-310 | a word without a delimiter is one token |
| JavaText.WordThenSpace | src/jgdiplugin/JGDIPlugin.java:305-310 | a word, a space and more text tokenise as that word followed by the tokens of the text |
| JavaText.TokensOfJoin | src/jgdiplugin/accounting/FinishedJobRecord.java:81-87 | words joined by a delimiter tokenise back to the same words |
| JavaText.IntToString | src/jgdiplugin/JGDIPlugin.java:481 | the decimal text of an int is non-empty and starts with a digit exactly when the int is non-negative |
| JavaText.ParseInteger | src/jgdiplugin/accounting/FinishedJobRecord.java:98-108 | a parse succeeds only within the type's bounds, and only on text that starts with a sign or a digit |
| JavaText.ParseIntegerOfSignedDigits | src/jgdiplugin/accounting/FinishedJobRecord.java:98-108 | an optional '+' or '-' followed by one or more digits parses to its signed decimal value when that lies within the bounds, and fails otherwise |
| JavaText.ParsedIsSignedDigits | src/jgdiplugin/accounting/FinishedJobRecord.java:98-108 | every text that parses is an optional sign and one or more digits, and its value is their signed decimal value |
| JavaText.ParseIntegerOfIntToString | src/jgdiplugin/JGDIPlugin.java:524-530 | parsing a printed int gives the int back |
| JavaText.ToLower | src/jgdiplugin/JGDIPlugin.java:609 | lower-casing keeps the length and maps each character on its own |
| JobModListener.EventOccured | src/jgdiplugin/JGDIJobModListener.java:45-79 | other events, and a task-modification event whose task state cannot be read, fire nothing |
| JobModListener.FiresIffHandled | src/jgdiplugin/JGDIJobModListener.java:56-72 | an event fires exactly for the five state words 0x480, 0x80, 0x40, 0x840 and 0x8840 |
| JobModListener.HandledStateEvents | src/jgdiplugin/JGDIJobModListener.java:56-69 | dr gives Finished with task "0" and -88, r gives Running, q and qw give Queued, Eqw gives Queued tagged "Eqw" |
| JobModListener.ExactValueNotBits | src/jgdiplugin/JGDIJobModListener.java:56-72 | a running task that is also suspended fires nothing: the switch compares whole values, not bits |
| JobFinishListener.FinalUsageFiresIff | src/jgdiplugin/JGDIJobFinishListener.java:45-90 | final usage sends Finished exactly when exit status, start and end time are present and the end time is positive; the event carries them, times in ms |
| JobFinishListener.EventOccured | src/jgdiplugin/JGDIJobFinishListener.java:45-95 | reference definition: a final-usage event with exit status, start and end time and a positive end time sends Finished; a deletion sends Finished with task "0" and -88; anything else sends nothing |
| JobFinishListener.DeletionMatchesRunningDeleted | src/jgdiplugin/JGDIJobFinishListener.java:91-95 | a deletion always sends Finished with task "0" and status -88, the same event value the state-change listener fires for dr |
| FinishedJobRecords.Token | src/jgdiplugin/accounting/FinishedJobRecord.java:84-91 | token n exists exactly when the line has at least n tokens |
| FinishedJobRecords.ParseRecord | src/jgdiplugin/accounting/FinishedJobRecord.java:80-118 | the token loop gives the record of the line, or fails on a malformed number in token 10, 11, 13 or 36 |
| FinishedJobRecords.RecordOf | src/jgdiplugin/accounting/FinishedJobRecord.java:80-118 | reference definition: the record of a line is built from its colon-separated tokens 1, 6, 10, 11, 13, 15, 16 and 36, or fails on a malformed number |
| FinishedJobRecords.EmptyFieldsSkipped | src/jgdiplugin/accounting/FinishedJobRecord.java:81-87 | an empty field between two colons is skipped and does not move the token number |
| FinishedJobRecords.ParseOfFormattedLine | src/jgdiplugin/accounting/FinishedJobRecord.java:80-118 | writing the fields with ':' and parsing them gives back tokens 1, 6, 10, 11, 13, 15, 16 and 36, with the times times 1000 |
| FinishedJobRecords.ShortLinesKeepDefaults | src/jgdiplugin/accounting/FinishedJobRecord.java:80-118 | a field whose token is missing keeps its default: task 0, end time 0, job number null |
| AccountingThread.InsertKey | src/jgdiplugin/accounting/SGEAccountingThread.java:600-604 | the id inserted is the id looked up, except that it is NULL exactly when the job number is missing and the task number is not positive |
| AccountingThread.SelectKey | src/jgdiplugin/accounting/SGEAccountingThread.java:556-569 | reference definition: the id persist looks up is the job number, or "null", then "." and the task number when it is positive |
| AccountingThread.Persisted | src/jgdiplugin/accounting/SGEAccountingThread.java:551-627 | nothing changes when the id is stored or the insert aborts; otherwise one row with the record's own start, end and exit status is added, and the cursor stays |
| AccountingThread.PersistIdempotent | src/jgdiplugin/accounting/SGEAccountingThread.java:571-576 | persisting a record twice equals persisting it once when it has a job number or a positive task |
| AccountingThread.PersistNullIdTwice | src/jgdiplugin/accounting/SGEAccountingThread.java:556-604 | a record with neither job number nor task is stored twice, because NULL never matches the key "null" |
| AccountingThread.UnparsableCpuTimeSkipsInsert | src/jgdiplugin/accounting/SGEAccountingThread.java:609-615 | equal start and end times with a missing CPU time abort the insert |
| AccountingThread.KeepRows | src/jgdiplugin/accounting/SGEAccountingThread.java:536-543 | the rows kept are exactly the rows ending at or after the cut-off |
| AccountingThread.CleanedUp | src/jgdiplugin/accounting/SGEAccountingThread.java:531-549 | an id stays exactly when its row ends at or after the cut-off, with its row unchanged; the cursor stays |
| AccountingThread.CleanupKeepsOldRows | src/jgdiplugin/accounting/SGEAccountingThread.java:406-449 | on the first sync, every row ending at least a day after the epoch survives a sweep however old it is, because the window length is passed as the cut-off |
| AccountingThread.CleanupIdempotent | src/jgdiplugin/accounting/SGEAccountingThread.java:536-543 | a second sweep removes nothing more |
| AccountingThread.LocalFinishedJobInfo | src/jgdiplugin/accounting/SGEAccountingThread.java:483-529 | the answer is null exactly without a connection; otherwise NOT_FOUND with no times for an unknown id, and FINISHED with the stored times and status for a stored one |
| AccountingThread.PersistThenLookup | src/jgdiplugin/accounting/SGEAccountingThread.java:483-627 | a record that is stored is found again under its id, with its own times and status |
| AccountingThread.DurationText | src/jgdiplugin/accounting/SGEAccountingThread.java:294-355 | the text ends with the seconds |
| AccountingThread.UnitWord | src/jgdiplugin/accounting/SGEAccountingThread.java:313-352 | the unit is printed singular exactly when its number is 1, and with a plural suffix otherwise |
| AccountingThread.DurationTokens | src/jgdiplugin/accounting/SGEAccountingThread.java:311-353 | the words of the text are the non-zero components from weeks down, then the seconds always, each number followed by its unit, singular exactly for 1 |
| AccountingThread.DurationTextRoundTrip | src/jgdiplugin/accounting/SGEAccountingThread.java:294-355 | reading the text back, number by number and unit by unit, gives the whole seconds of the duration, negative durations counting as 0 |
| AccountingThread.ComponentsRecombine | src/jgdiplugin/accounting/SGEAccountingThread.java:301-309 | weeks, days, hours, minutes and seconds put back together give the seconds |
| AccountingThread.CutOff | src/jgdiplugin/accounting/SGEAccountingThread.java:406-415 | reference definition: the window is a day before the first sync, otherwise the time since the last sync plus five minutes, computed once per pass |
| AccountingThread.InWindow | src/jgdiplugin/accounting/SGEAccountingThread.java:465-468 | reference definition: a record is in the window when the clock at the time it is read, less its end time, is below the cut-off |
| AccountingThread.WindowBounds | src/jgdiplugin/accounting/SGEAccountingThread.java:406-469 | with the cut-off computed at one clock reading and the record compared with it at a later one: after a sync, stored exactly when it ended after five minutes before that sync plus the time elapsed between the two readings; before the first sync, exactly when it ended within the day before it is read |
| AccountingThread.NonUpdatingKeepsCursor | src/jgdiplugin/accounting/SGEAccountingThread.java:422-471 | a pass that does not update the database never moves the sync cursor |
| AccountingThread.StepTick | src/jgdiplugin/accounting/SGEAccountingThread.java:422-471 | reference definition: one turn of the read loop stops on shutdown, at end of file when not continuous, on a rotated file or a malformed line; otherwise it persists an in-window record, or at end of file moves the cursor and sweeps |
| AccountingThread.Pass | src/jgdiplugin/accounting/SGEAccountingThread.java:357-481 | reference definition: a pass reads the file from the start, or after a shrunk file the rotated copy once, resetting the stored size |
| AccountingThread.RotationBranch | src/jgdiplugin/accounting/SGEAccountingThread.java:383-397 | a shrunk or empty file reads no line, ends the pass, marks the rotated copy read and, after reading it the first time, resets the stored size to 0 |
| AccountingThread.RotatedFlagSticks | src/jgdiplugin/accounting/SGEAccountingThread.java:476-479 | once the rotated copy has been read, the flag stays set |
| AccountingThread.LinesPersistWindow | src/jgdiplugin/accounting/SGEAccountingThread.java:457-469 | well-formed lines keep every stored row, store every in-window record with a job number whose insert runs, and store nothing else |
| AccountingThread.LinesThenEndOfFile | src/jgdiplugin/accounting/SGEAccountingThread.java:426-431 | a non-continuous pass over well-formed lines stops at end of file with what the lines stored |
| AccountingThread.EndOfFileTurn | src/jgdiplugin/accounting/SGEAccountingThread.java:406-454 | at end of file new records move the cursor to the clock and the file length; without new records a missing or shorter file ends the pass; an end of file that goes on, with or without new records, sweeps the table and records the clock exactly when more than 30 minutes have passed since the last sweep, and otherwise leaves both the rows and the time of the last sweep; the first sweep of a pass comes half an hour after the epoch |
| AccountingThread.LookupOver | src/jgdiplugin/accounting/SGEAccountingThread.java:483-529 | null exactly without a connection; a closed connection gives NOT_FOUND; an open one answers from the table |
| AccountingThread.SgeAccountingThread.constructor | src/jgdiplugin/accounting/SGEAccountingThread.java:58-118 | the path is root/cell/common/accounting; the connection opens or not; the tables start as stored or fresh with cursor (0, 0) |
| AccountingThread.SgeAccountingThread.Shutdown | src/jgdiplugin/accounting/SGEAccountingThread.java:629-631 | the shutdown flag is set |
| AccountingThread.SgeAccountingThread.Persist | src/jgdiplugin/accounting/SGEAccountingThread.java:551-627 | with an open connection the tables become Persisted; otherwise they stay |
| AccountingThread.SgeAccountingThread.Cleanup | src/jgdiplugin/accounting/SGEAccountingThread.java:531-549 | 0 and no change without a connection, -1 and no change on a closed one, otherwise the count deleted and the tables swept |
| AccountingThread.SgeAccountingThread.GetFinishedJobInfo | src/jgdiplugin/accounting/SGEAccountingThread.java:483-529 | the answer is LookupOver of the connection state and the tables |
| AccountingThread.SgeAccountingThread.Turn | src/jgdiplugin/accounting/SGEAccountingThread.java:422-471 | one turn of the read loop does what StepTick says, and sets the shutdown flag exactly when it stops for shutdown |
| AccountingThread.SgeAccountingThread.ReadLoop | src/jgdiplugin/accounting/SGEAccountingThread.java:399-474 | the loop leaves the tables and the stop reason of RunTicks from numJobsAdded 0 and lastCleanupTime 0 |
| AccountingThread.SgeAccountingThread.ParseFile | src/jgdiplugin/accounting/SGEAccountingThread.java:357-481 | the tables, the rotated flag and the stop reason are those of Pass, and the connection is untouched |
| AccountingThread.SgeAccountingThread.Run | src/jgdiplugin/accounting/SGEAccountingThread.java:220-250 | nothing happens without a connection; otherwise the passes of RunSpec run and the connection closes exactly when shutdown is seen |
| AccountingThread.SgeAccountingThread.RunTurn | src/jgdiplugin/accounting/SGEAccountingThread.java:229-240 | one pass parses the file; the connection closes and the run ends exactly when shutdown has been requested, and otherwise the rest of RunSpec follows from the new state |
| ArcoDatabases.QueryOfTaskId | src/jgdiplugin/accounting/ARCODatabase.java:197-211 | in array-job mode "J.T" queries job J and task T, split at the first '.' |
| ArcoDatabases.BuildQuery | src/jgdiplugin/accounting/ARCODatabase.java:197-211 | reference definition: the job-number query, with a task-number clause for a dotted id in array-job mode |
| ArcoDatabases.QueryOfPlainId | src/jgdiplugin/accounting/ARCODatabase.java:197-211 | outside array-job mode, or for an id without '.', the id goes in verbatim |
| ArcoDatabases.ScanFindsFirstComplete | src/jgdiplugin/accounting/ARCODatabase.java:227-245 | the scan picks row r exactly when r is the first complete row and no NULL timestamp comes before it |
| ArcoDatabases.ScanHitsNull | src/jgdiplugin/accounting/ARCODatabase.java:230-235 | the scan hits a NULL timestamp exactly when one comes before any complete row |
| ArcoDatabases.ScanRows | src/jgdiplugin/accounting/ARCODatabase.java:227-249 | the rs.next() loop ends as Scan says |
| ArcoDatabases.ScanAnswer | src/jgdiplugin/accounting/ARCODatabase.java:227-262 | null exactly for no rows; the first complete row's times and status; otherwise the report with only the id |
| ArcoDatabases.Numbers | src/jgdiplugin/accounting/ARCODatabase.java:70-73 | the first n connections are numbered 0 to n-1 |
| ArcoDatabases.ArcoDatabase.constructor | src/jgdiplugin/accounting/ARCODatabase.java:51-81 | five permits; connections open only with a non-empty URL, up to the first failure; initialized exactly with all five; then the pool is balanced |
| ArcoDatabases.ArcoDatabase.Shutdown | src/jgdiplugin/accounting/ARCODatabase.java:83-94 | no connection is left, either known or available |
| ArcoDatabases.ArcoDatabase.AcquireConnection | src/jgdiplugin/accounting/ARCODatabase.java:96-108 | no permit blocks; otherwise it takes a permit and the first available connection, or fails on an empty list |
| ArcoDatabases.ArcoDatabase.ReconnectConnection | src/jgdiplugin/accounting/ARCODatabase.java:110-145 | a foreign connection is refused; otherwise a new connection replaces it, becomes available, and one permit returns |
| ArcoDatabases.ArcoDatabase.ReleaseConnection | src/jgdiplugin/accounting/ARCODatabase.java:147-179 | open goes back with one permit; closed is replaced with one permit, or nothing and no permit when reopening fails; a failing check reconnects and also puts it back, two permits |
| ArcoDatabases.ArcoDatabase.RunQuery | src/jgdiplugin/accounting/ARCODatabase.java:193-249 | from a balanced pool with a free permit, the retry loop never waits, runs the scan of the rows, and leaves one of its own connections checked out of a pool that is otherwise balanced |
| ArcoDatabases.ArcoDatabase.GetFinishedJobInfo | src/jgdiplugin/accounting/ARCODatabase.java:181-263 | null when not initialized; from a balanced pool with a free permit, the answer of the scan however many queries fail first; an open connection keeps the pool balanced |
| Submission.Validate | src/jgdiplugin/JGDIPlugin.java:222-244 | the checks pass exactly when there is a user name, an executable and an argument list without null |
| Submission.Arguments | src/jgdiplugin/JGDIPlugin.java:240-244 | the arguments, one for one, once validated |
| Submission.EnvEntries | src/jgdiplugin/JGDIPlugin.java:259-271 | one "name=value" per environment property, in order |
| Submission.BuildCommand | src/jgdiplugin/JGDIPlugin.java:220-297 | the appends build exactly CommandText |
| Submission.CommandText | src/jgdiplugin/JGDIPlugin.java:220-297 | reference definition: the text of the qsub command line of a validated request |
| Submission.SudoTokensSplice | src/jgdiplugin/JGDIPlugin.java:227-232 | with privilege escalation the command starts with the tokens "sudo", "-E", "-u" and the user name |
| Submission.QsubTokens | src/jgdiplugin/JGDIPlugin.java:246-310 | after the sudo part comes the token "qsub", then the tokens of the rest |
| Submission.ArrayCommandTokens | src/jgdiplugin/JGDIPlugin.java:246-310 | an array submission runs the sudo part, "qsub" and the executable's tokens |
| Submission.SingleCommandTokens | src/jgdiplugin/JGDIPlugin.java:251-310 | a single submission runs the sudo part, "qsub", then the tokens of the native specification, "-o" and the output path, "-e" and the error path, "-v" and the environment, the executable and every argument; an argument with a space becomes several tokens |
| Submission.PathTokens | src/jgdiplugin/JGDIPlugin.java:252-256 | the -o and -e flags stand as tokens of their own between the paths' tokens |
| Submission.TokensConcatEnv | src/jgdiplugin/JGDIPlugin.java:273-288 | the environment flag adds "-v" and the joined list as tokens, or nothing |
| Submission.ArgsTextTokens | src/jgdiplugin/JGDIPlugin.java:292-296 | the appended arguments tokenise as each argument's tokens, in order |
| Submission.Buffer | src/jgdiplugin/JGDIPlugin.java:326-331 | one read into a buffer gives exactly the buffer's length: the stream's first characters, then NULs |
| Submission.FirstJobLine | src/jgdiplugin/JGDIPlugin.java:344-352 | none exactly when no line starts with "Your job"; otherwise the first line that does, every earlier line not starting with it |
| Submission.ParseJobId | src/jgdiplugin/JGDIPlugin.java:344-354 | the loop over the lines gives JobId |
| Submission.JobId | src/jgdiplugin/JGDIPlugin.java:344-354 | reference definition: the id between the offset and the next space of the first "Your job" line, out of range when that line is shorter than the offset, or none |
| Submission.JobIdOfLine | src/jgdiplugin/JGDIPlugin.java:344-352 | a "Your job" line of under 100 characters with an id and a space at the offset gives that id |
| Submission.PassOffset | src/jgdiplugin/JGDIPlugin.java:248-250 | a turn keeps the offset, or adds six for an array submission |
| Submission.Attempt | src/jgdiplugin/JGDIPlugin.java:218-361 | one turn gives the grown offset, starts the command only when validated with the master alive, and ends as Classify says at the grown offset |
| Submission.Classify | src/jgdiplugin/JGDIPlugin.java:218-361 | reference definition: a failed check or a start that throws is counted, a master that is down restarts, otherwise the turn ends as StartedKind says |
| Submission.ReadAnswer | src/jgdiplugin/JGDIPlugin.java:326-361 | a started qsub ends as StartedKind says: a restart on an unreachable service, the id after the offset on the first "Your job" line, otherwise the counted error with the stream text |
| Submission.StartedKind | src/jgdiplugin/JGDIPlugin.java:326-361 | reference definition: an unreachable service restarts; a job id ends the loop; an offset past the line or no id is counted with its message |
| Submission.SubmitTurn | src/jgdiplugin/JGDIPlugin.java:208-389 | one turn of the loop unfolds by how it ends: id, restart, counted attempt, fifth attempt |
| Submission.SubmitFrom | src/jgdiplugin/JGDIPlugin.java:199-392 | reference definition: the retry loop from a given turn, attempt number, sleep, offset and log, with the offset carried over or set afresh |
| Submission.SubmitStep | src/jgdiplugin/JGDIPlugin.java:208-389 | one turn either returns what SubmitFrom returns from it, or leaves an attempt number from 1 to 5 with which SubmitFrom of the remaining turns completes the trace |
| Submission.SubmitJob | src/jgdiplugin/JGDIPlugin.java:199-392 | the do-while loop's result, sleeps and started commands are AsWrittenSubmit |
| Submission.TurnAttempts | src/jgdiplugin/JGDIPlugin.java:208-389 | the attempt number of each turn taken: it starts at the given number, stays between 1 and 5, and from turn to turn stays or goes up by one; there is one per turn taken, and none only without turns |
| Submission.SleepsFollowBackoff | src/jgdiplugin/JGDIPlugin.java:204-385 | the sleeps are exactly, turn by turn, none before a turn of the first attempt and Backoff of the turn's attempt number before any other: 2, 4, 8 and 16 s before attempts 2, 3, 4 and 5 |
| Submission.CountedTurn | src/jgdiplugin/JGDIPlugin.java:208-389 | a counted turn adds its attempt line to the log and goes on with the next attempt and its backoff, or returns "ERROR:" and the log after the fifth |
| Submission.CountedToTheEnd | src/jgdiplugin/JGDIPlugin.java:208-389 | from attempt i on, turns that are all counted, whatever made each one counted, return "ERROR:", the log and one attempt line each, after Backoff of every attempt past the first, with each turn's command |
| Submission.FiveCountedAttempts | src/jgdiplugin/JGDIPlugin.java:204-389 | five counted turns, each of them a failed check, a start that throws, an offset past the line or an answer without an id, return "ERROR:" and the five attempt lines after sleeps of 2, 4, 8 and 16 s |
| Submission.FailedChecksGiveFiveAttempts | src/jgdiplugin/JGDIPlugin.java:222-388 | a request that fails its checks gives exactly five attempt lines after sleeps of 2, 4, 8 and 16 s, returns "ERROR:" and the log, and starts no process |
| Submission.RestartKeepsOutcome | src/jgdiplugin/JGDIPlugin.java:299-339 | a restart turn, whether the master is down or qsub's error stream reports the service unreachable, changes neither the attempt number, the sleep nor the log; only the offset can move, so a single submission, or one with a fresh offset, ends as the rest of the turns say |
| Submission.SingleSubmissionId | src/jgdiplugin/JGDIPlugin.java:342-351 | "Your job <id> ..." returns the id on the first turn after one start and no sleep |
| Submission.ArrayAnswerId | src/jgdiplugin/JGDIPlugin.java:344-351 | "Your job-array <id> ..." read at offset 15 gives the id, and at 21 the id less six characters |
| Submission.ArraySubmissionId | src/jgdiplugin/JGDIPlugin.java:248-351 | an array submission's standard answer returns the id on the first turn |
| Submission.ArrayRetryAsWritten | src/jgdiplugin/JGDIPlugin.java:202-351 | after one master-down turn an array submission returns its id less its first six characters |
| Submission.ArrayRetryCorrected | src/jgdiplugin/JGDIPlugin.java:202-351 | with the offset set afresh each turn the same turns return the whole id |
| Submission.RestartThenAnswer | src/jgdiplugin/JGDIPlugin.java:202-351 | a master-down first turn followed by an answer returns the id read at offset 21 when the offset carries over and at 15 when it is set afresh, with one command started |
| Plugin.PutsContents | src/jgdiplugin/JGDIPlugin.java:448-455 | the map holds exactly the keys put, each with the value put last |
| Plugin.Entry | src/jgdiplugin/JGDIPlugin.java:410-426 | an entry puts only a name that is not blank and a non-empty value |
| Plugin.EntryPuts | src/jgdiplugin/JGDIPlugin.java:408-427 | at most one put per entry |
| Plugin.ParseRequest | src/jgdiplugin/JGDIPlugin.java:405-428 | the loop over the comma-separated entries builds RequestedVars |
| Plugin.SplitWhole | src/jgdiplugin/JGDIPlugin.java:408-412 | split on a character the text lacks gives the whole text as the only piece |
| Plugin.SplitPair | src/jgdiplugin/JGDIPlugin.java:412-417 | "a=b" with non-empty sides splits into exactly a and b |
| Plugin.SplitTrailing | src/jgdiplugin/JGDIPlugin.java:412-413 | a trailing delimiter leaves one piece, because split drops trailing empty strings |
| Plugin.TrimDropsTrailingSpace | src/jgdiplugin/JGDIPlugin.java:414-415 | trimming a word followed by a space gives the word |
| Plugin.RequestOfOneEntry | src/jgdiplugin/JGDIPlugin.java:405-428 | a request of one entry puts exactly what that entry puts |
| Plugin.RequestOfName | src/jgdiplugin/JGDIPlugin.java:410-424 | "name" and "name=" both ask for "true", and "name=value" asks for value |
| Plugin.PaddedNameKeepsItsSpace | src/jgdiplugin/JGDIPlugin.java:412-415 | "name =" asks for the key "name " with its space, so it matches no resource called name |
| Plugin.NamePrefixRequest | src/jgdiplugin/JGDIPlugin.java:405-446 | the one-entry request "GridJobNamePrefix=p" keeps a job exactly when its name starts with p |
| Plugin.NamePrefixOverrides | src/jgdiplugin/JGDIPlugin.java:434-446 | any request with a GridJobNamePrefix entry, whatever else it holds, keeps a job exactly when its name starts with that entry's value, whatever resources the job requests |
| Plugin.Keeps | src/jgdiplugin/JGDIPlugin.java:430-471 | reference definition: an empty request keeps every job; a name prefix keeps the names starting with it; otherwise every requested resource must match up to case |
| Plugin.EmptyRequestKeepsAll | src/jgdiplugin/JGDIPlugin.java:434-436 | an empty request keeps every job, in order |
| Plugin.ResourceMap | src/jgdiplugin/JGDIPlugin.java:448-455 | the loop builds the job's resource map, the last value of a name winning |
| Plugin.Matches | src/jgdiplugin/JGDIPlugin.java:434-471 | the loop over the requested names, with its break, decides Keeps |
| Plugin.Kept | src/jgdiplugin/JGDIPlugin.java:430-477 | the jobs kept are some of the input, each of them passing the filter |
| Plugin.KeptExactly | src/jgdiplugin/JGDIPlugin.java:430-477 | a job is among the kept exactly when it is among the input and passes the filter |
| Plugin.FilterJobs | src/jgdiplugin/JGDIPlugin.java:430-477 | the filter loop gives Kept |
| Plugin.MaxTask | src/jgdiplugin/JGDIPlugin.java:551-564 | maxTaskId is at least 0 and every listed task number, and is 0 or one of them |
| Plugin.FirstTask | src/jgdiplugin/JGDIPlugin.java:552-559 | -1 exactly when no listed task has the number; otherwise the first listed task that has it |
| Plugin.JobInfo | src/jgdiplugin/JGDIPlugin.java:521-597 | getJobInfo gives JobInfoOf |
| Plugin.JobInfoOf | src/jgdiplugin/JGDIPlugin.java:521-597 | reference definition: getJobInfo from the job given or fetched, its id split into job and task, and the inference |
| Plugin.InferState | src/jgdiplugin/JGDIPlugin.java:547-588 | the scan of the task list gives TaskState |
| Plugin.TaskState | src/jgdiplugin/JGDIPlugin.java:547-588 | reference definition: the state of a task from the job's task list, its largest task number and the finished-job lookup |
| Plugin.NoDotInNumber | src/jgdiplugin/JGDIPlugin.java:481 | a printed job number has no '.' |
| Plugin.JobNumberMeansTaskOne | src/jgdiplugin/JGDIPlugin.java:524-530 | a bare job number asks about task 1 |
| Plugin.TaskIdRoundTrip | src/jgdiplugin/JGDIPlugin.java:524-530 | "J.T" built from two ints splits back into J and T |
| Plugin.TaskIdReachesInference | src/jgdiplugin/JGDIPlugin.java:521-588 | getJobInfo on the id getJobList builds for task T comes to the inference for T, with the job's resources |
| Plugin.TaskInference | src/jgdiplugin/JGDIPlugin.java:547-588 | no tasks gives QUEUED at submission time times 1000; a listed task gives RUNNING at its start time times 1000; an unlisted task up to the largest gives null; above it, null when the lookup answers and QUEUED when it gives null |
| Plugin.LocalBackendHidesLateTasks | src/jgdiplugin/JGDIPlugin.java:574-583 | with the local backend connected, a job with listed tasks is never QUEUED, because even NOT_FOUND is a non-null answer |
| Plugin.Counter | src/jgdiplugin/JGDIPlugin.java:500-502 | the range loop visits min + k·step, all at most max, and does not leave the int range with a positive step and max + step within int |
| Plugin.CounterInRange | src/jgdiplugin/JGDIPlugin.java:500 | every value the range loop visits is an int |
| Plugin.CounterPassesMax | src/jgdiplugin/JGDIPlugin.java:500 | a range loop with a positive step that ends normally ends with a value past max |
| Plugin.CountTasks | src/jgdiplugin/JGDIPlugin.java:498-502 | the counter loop gives Counter |
| Plugin.TaskIds | src/jgdiplugin/JGDIPlugin.java:481-505 | one "J.T" per task number, in order |
| Plugin.TaskNumbers | src/jgdiplugin/JGDIPlugin.java:504-505 | the listed tasks' numbers, in order |
| Plugin.CollectReports | src/jgdiplugin/JGDIPlugin.java:486-509 | the loop over one job's ids gives Reports |
| Plugin.ListJob | src/jgdiplugin/JGDIPlugin.java:481-511 | the reports of one job are JobReports |
| Plugin.JobReports | src/jgdiplugin/JGDIPlugin.java:481-511 | reference definition: the reports of one job: none without a task list, each listed task with null reports left out, or each task of the range |
| Plugin.ListJobs | src/jgdiplugin/JGDIPlugin.java:479-512 | the loop over the kept jobs gives JobsReports |
| Plugin.JobListNeverEscapes | src/jgdiplugin/JGDIPlugin.java:479-516 | for jobs whose numbers are ints, no task-number parse ever escapes getJobList |
| Plugin.PingAliveIff | src/jgdiplugin/JGDIPlugin.java:156-185 | after a ping the master counts as alive exactly when the probe connected and what followed succeeded |
| Plugin.PingKeepsListenersInStep | src/jgdiplugin/JGDIPlugin.java:156-185 | a ping keeps the listeners open exactly while the master counts as alive |
| Plugin.PingTransitions | src/jgdiplugin/JGDIPlugin.java:156-185 | a good probe while up and a failed probe while down change nothing; a restore switches to the probe's session; a crash marks down and closes the listeners |
| Plugin.PingNext | src/jgdiplugin/JGDIPlugin.java:156-185 | reference definition: a restore connects and registers, a good probe while up changes nothing, anything else marks the master down and closes the listeners |
| Plugin.BackendOf | src/jgdiplugin/JGDIPlugin.java:607-616 | local exactly for a missing or blank method, ARCo exactly for "arco" in any case |
| Plugin.SeenOf | src/jgdiplugin/JGDIPlugin.java:581-583 | getJobInfo sees a non-null answer exactly for a report or an ARCo answer with a record |
| Plugin.KillCommandTokens | src/jgdiplugin/JGDIPlugin.java:625-642 | with a user name, killJob runs exactly the tokens sudo, -u, the user, qdel, -f when forced, and the id |
| Plugin.KillOf | src/jgdiplugin/JGDIPlugin.java:622-675 | reference definition: qdel through sudo with a user name; otherwise a task or job deletion through the session, nothing for a bad number, an escaping exception without a session |
| Plugin.JgdiPlugin.constructor | src/jgdiplugin/JGDIPlugin.java:51-88 | the master counts as alive; the session is the connection, if any; the listeners are open exactly when connected and registered |
| Plugin.JgdiPlugin.PingQmaster | src/jgdiplugin/JGDIPlugin.java:156-185 | the liveness state becomes PingNext of the old one |
| Plugin.JgdiPlugin.GetFinishedJobInfo | src/jgdiplugin/JGDIPlugin.java:605-619 | local: the thread's lookup, or a NullPointerException without a thread; ARCo: created once from the preferences, then null when not initialized and, from a balanced pool with a free permit, the scan of the rows; the pool stays valid; otherwise the unsupported-method exception |
| Plugin.JgdiPlugin.ArcoFinishedJobInfo | src/jgdiplugin/JGDIPlugin.java:609-614 | the ARCo backend is created from the preferences only when there is none yet; its answer is null when it is not initialized and the scan of the rows from a balanced pool with a free permit; the pool stays valid |
| Plugin.JgdiPlugin.GetJobInfo | src/jgdiplugin/JGDIPlugin.java:599-602 | the public getJobInfo fetches the job through the session and gives JobInfoOf |
| Plugin.JgdiPlugin.GetJobList | src/jgdiplugin/JGDIPlugin.java:395-519 | getJobList gives JobListOf: null without a session, empty when the job list throws |
| Plugin.JobListOf | src/jgdiplugin/JGDIPlugin.java:395-519 | reference definition: null without a session, empty when the job list throws, otherwise the reports of the kept jobs |
| Plugin.JgdiPlugin.KillJob | src/jgdiplugin/JGDIPlugin.java:622-675 | the action is KillOf: qdel as the user, a task deletion, a job deletion, nothing for a bad number, or an escaping exception without a session |

## Left out

- Processes, streams, JDBC, the embedded database, the file system and the JGDI library are
  not run. What they return is an input. The copy and decompression of the rotated file are
  not modelled. Closing the process streams in `releaseProcess` is not modelled either.
- Threads, the 15-second heart-beat timer, `synchronized`, and the semaphore's fairness and
  blocking are left out. A lookup with no free permit is the answer `Waits` (or `Blocks`,
  `InfoBlocks` and `ListBlocks` above it), not a thread that waits.
- `waitForQmasterAlive` is not modelled as a loop. A restart turn of `submitJob` stands
  for the wait ending.
- `setPreferences` is left out. The plug-in object is built with the retrieval method, the
  accounting thread and the preferences it would leave. Shutting one backend down when
  the other is chosen is not modelled.
- `JGDIQmasterDownListener` and `main` are left out: they only log or print.
- All logging and `printStackTrace` output is left out.
- The listeners' events are values. The state-change listener delivers through
  `fireEvent` and the finish listener through `sendEvent`; that delivery is not modelled.
- Reconnecting to ARCo retries until a connection opens. The model assumes that it opens.
  An endless retry is not modelled.
- Floating point is left out. Load values of a final-usage event arrive as whole numbers.
  `Double.parseDouble` of the CPU time is a simplified decimal grammar
  (`JavaDoubleParses`). The adjusted end time is never stored, so its value is not
  computed.
- Java's long overflow is left out. `seconds * 1000` and `timestamp * 1000` are exact
  integers.
- Case folding and digit parsing cover ASCII only. Bytes are read as characters, with no
  charset decoding.
- One `now` stands for every clock read within a turn of the accounting loop.
- SQL failures other than a closed connection are left out. The VARCHAR(32) width of
  JOB_ID is not modelled.
- Environment properties are string pairs in the property set's order. Non-string entries
  are left out. A resource with a null string value is left out too.
- The 2-second sleeps of the accounting loop and the 3-second sleeps of reconnection are
  left out. The sleeps of `submitJob` are recorded, not taken.
- `getJaStructure(0)` is assumed present. The exception for a job without a task range is
  not modelled.
- Exception messages follow Java 8 wording, for example "String index out of range: n".
- `Plugin.JgdiPlugin.GetJobInfo` and `Plugin.JgdiPlugin.GetJobList`: these take the answer
  of the finished-job lookup as a function of the id, instead of calling
  `GetFinishedJobInfo`. So the lazy creation of the ARCo backend during a job listing is
  not part of their contracts.
- `JavaText.ParseInteger`: its own contract states only the bounds and the leading
  character. Its value is stated by `JavaText.ParseIntegerOfSignedDigits` and
  `JavaText.ParsedIsSignedDigits`.
- `AccountingThread.DurationText`: its own contract states only the final seconds. The
  words of the text are stated by `AccountingThread.DurationTokens`, and their value by
  `AccountingThread.DurationTextRoundTrip`.
- `ArcoDatabases.ArcoDatabase.GetFinishedJobInfo`, `Plugin.JgdiPlugin.GetFinishedJobInfo` and
  `Plugin.JgdiPlugin.ArcoFinishedJobInfo`: the answer from a pool that is not balanced, or
  has no free permit, is not stated. Such a lookup may wait or answer with an exception.
- `Plugin.Counter`: a range loop whose int counter would overflow, or whose step is 0, ends
  in `ListRunaway`. What Java's wrapped counter does after that is not modelled.
- `Plugin.JobListNeverEscapes`: it assumes job and range numbers fit in an int, as JGDI
  hands them out.
- `AccountingThread.SgeAccountingThread.ParseFile`: it requires an open connection, because
  only `run()` calls it, after its null check. A file that fails to open ends the pass
  as `OpenFailed`.
- `AccountingThread.SgeAccountingThread.Run` requires a connection that is not yet closed.
  A thread runs once.
- `Submission.SubmitJob`: the turns are a finite list. A loop that never ends, because the
  master stays down, is the outcome `Unfinished`.
- `Submission.BuildCommand` builds the argument text from the last argument back. The text
  is the same as the forward appends.
- `Plugin.PingQmaster`: when closing one event client throws, the others stay open in
  Java. The model marks the listeners closed in either case.

## Findings

| source | as written | input that shows it | evidently intended | confidence | as-written member | corrected member |
|---|---|---|---|---|---|---|
| src/jgdiplugin/JGDIPlugin.java:202-250 | `offset` is set to 9 once, before the do-while loop. Every validated turn of an array submission adds 6, so a retried array submission reads the id at offset 21, 27, … | An array submission whose first turn finds the master down and whose second gets "Your job-array 1234567.1-10:1 (...) has been submitted" returns "7.1-10:1" | read the id at offset 15 on every turn of an array submission | high, not executed | Submission.ArrayRetryAsWritten | Submission.ArrayRetryCorrected |
