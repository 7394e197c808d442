# saliweb core in Dafny

This project models the sequential core of the saliweb web-service framework: the Python backend and frontend that the Sali lab's web services are built on. It covers:

- the job state machine and its older copy;
- the SGE task-range option (`-t first-last:step`) and the combined run id of an array job;
- the backend's FIFO event queue;
- the frontend's job-name sanitising and candidate generation;
- the frontend's relative-time formatting, job records and config-key naming;
- the MySQL user-name derivation and option checks of `make_web_service`;
- the pure rules of the SCons build helpers: build map, service module, install layout, sudo prefix, GRANT column sorting, `##CONFIG##` substitution and install targets;
- the REST client's parameter formatting and command dispatch;
- the account sign-up validation;
- the decision rules of the `deljob`, `failjob` and `delete_all_jobs` admin tools.

State that the source updates in place is modelled as classes with `modifies` clauses:

- `JobState` (both copies);
- `_EventQueue`;
- `IncomingJob`;
- `QueuedJob` and `CompletedJob`;
- the SCons environment (`Build.Env`);
- the admin tools' `Job`.

Source loops are modelled as methods with loop invariants and are proved against a specification function. These are `_make_database_name`, `_get_trial_job_names`, `_get_job_name_directory`, `find_job`, `_add_build_variable`, `_read_config`, the `curl_args` construction, the line loop of `_subst_install`, and the attribute copy of the job records. Everything else is functions and lemmas.

Randomness, the clock, the filesystem, the database and the terminal become parameters:

- random choices are a `pick: nat -> nat` oracle, or a sequence of drawn numbers;
- "now" is a number of seconds;
- `mkdir` and the database uniqueness test are a `Probe` record;
- the daemon's pid is an `Option` (a `Result` where the state file can fail);
- a line read from stdin is a `string` argument.

Python exceptions become the `Err` side of `Result` (or `None`). Where the source raises a fixed message, the `Err` carries that text. The exceptions of `get_run_id` are named by their kind instead (`SgeTasks.RunIdError`), with the number of ids received for a count mismatch.

Modules, one per file:

- `Base`: `Option`/`Result`;
- `Text`: digits, case mapping, `str.replace`, paths, random alphanumerics;
- `JobStates`;
- `LegacyJobStates`;
- `SgeTasks`;
- `EventQueues`;
- `Submit`;
- `Frontend`;
- `MakeWebServices`;
- `Build` and `Grants`;
- `WebServices`;
- `Accounts`;
- `AdminJobs`;
- `DelJob`;
- `FailJob`;
- `DeleteAllJobs`.

## Model

| member | source | states |
|---|---|---|
| JobStates.GetValidStates | python/saliweb/backend/__init__.py:7-9 | eight distinct names with `INCOMING` first, and a name is among them iff it is a valid state |
| JobStates.JobState.constructor | python/saliweb/backend/__init__.py:17-22 | a state object built from a valid name holds that name |
| JobStates.JobState.Create | python/saliweb/backend/__init__.py:17-22 | construction succeeds iff the name is one of the eight; otherwise `InvalidStateError("<s> is not in [...]")` |
| JobStates.JobState.Get | python/saliweb/backend/__init__.py:25-27 | returns the current state, which is always valid |
| JobStates.JobState.Transition | python/saliweb/backend/__init__.py:31-39 | succeeds iff the target is `FAILED` or the pair is whitelisted, and then the state is the target; on failure the state is unchanged and the error is "Cannot transition from X to Y" |
| JobStates.TryMove | python/saliweb/backend/__init__.py:31-39 | a fresh state object asked to move ends in the target iff the move is allowed, and in its old state otherwise |
| JobStates.AllowedMoveExamples | python/saliweb/backend/__init__.py:31-39 | INCOMING→PREPROCESSING, ARCHIVED→EXPIRED, RUNNING→FAILED and FAILED→INCOMING land in the target |
| JobStates.RefusedMoveExamples | python/saliweb/backend/__init__.py:17-39 | `garbage` is not a state; INCOMING→RUNNING and INCOMING→`garbage` are refused and leave INCOMING |
| JobStates.TransitionTargetsValid | python/saliweb/backend/__init__.py:10-16 | every allowed transition ends in a valid state, so a non-state such as `garbage` is refused |
| JobStates.FailedAlwaysAllowed | python/saliweb/backend/__init__.py:35 | `FAILED` is reachable from every state, `FAILED` included |
| JobStates.AllowedIffPipelineStep | python/saliweb/backend/__init__.py:10-16 | a non-`FAILED` transition is allowed iff it is one step along INCOMING→…→EXPIRED or it is FAILED→INCOMING |
| JobStates.SuccessorUnique | python/saliweb/backend/__init__.py:10-16 | each state has at most one non-`FAILED` successor |
| LegacyJobStates.JobState.constructor | python/backend/state.py:17-22 | a state object built from a valid name holds that name |
| LegacyJobStates.JobState.Create | python/backend/state.py:17-22 | construction succeeds iff the name is one of the eight; otherwise `InvalidState` |
| LegacyJobStates.JobState.Get | python/backend/state.py:26-27 | returns the current, valid state |
| LegacyJobStates.JobState.Transition | python/backend/state.py:30-38 | the same acceptance rule as the current copy; a refusal leaves the state unchanged |
| LegacyJobStates.SameMachineAsCurrent | python/backend/state.py:7-16 | the older copy accepts exactly the same states and transitions as the current one |
| LegacyJobStates.Rank | python/backend/state.py:10-16 | ranks the pipeline 0..6, with -1 for `FAILED` and only for it |
| LegacyJobStates.OnlyForwardPath | python/backend/state.py:10-16 | every allowed non-`FAILED` move goes exactly one rank forward, except FAILED→INCOMING, the only way back |
| LegacyJobStates.ExpiredIsTerminal | python/backend/state.py:10-16 | from `EXPIRED` the only move is to `FAILED` |
| SgeTasks.Parse | python/saliweb/backend/cluster.py:43-58 | options without `-t ` give no range; an error is raised only when `-t ` is present, with the source's message |
| SgeTasks.ParseSingle | python/saliweb/backend/cluster.py:48-56 | `-t N` gives first = last = N and step 1 |
| SgeTasks.ParsePair | python/saliweb/backend/cluster.py:50-56 | `-t A-B` gives first A, last B, step 1 |
| SgeTasks.ParseRoundTrip | python/saliweb/backend/cluster.py:48-56 | `-t A-B:C` parses back to exactly (A, B, C) |
| SgeTasks.RangeParsesBack | python/saliweb/backend/cluster.py:48-56 | every range, written as an option, parses back to itself |
| SgeTasks.ParseWithoutDigits | python/saliweb/backend/cluster.py:44-47 | `-t ` followed by no digit at all is a `ValueError` |
| SgeTasks.TruthOfParse | python/saliweb/backend/cluster.py:57-61 | no `-t ` gives a falsy object; a parsed range is truthy iff its first task is non-zero |
| SgeTasks.TaskCount | python/saliweb/backend/cluster.py:65-66 | the range first..last by step holds (last - first) / step + 1 task ids |
| SgeTasks.AsWrittenRejectsUnevenRange | python/saliweb/backend/cluster.py:65-66 | the as-written count check refuses the five ids of `-t 1-10:2`, which the corrected check accepts |
| SgeTasks.AsWrittenAgreesOnEvenRanges | python/saliweb/backend/cluster.py:63-70 | the as-written and the corrected run id agree whenever the as-written one succeeds, and always when step divides last - first |
| SgeTasks.GetRunIdAsWritten | python/saliweb/backend/cluster.py:63-70 | the code as written: succeeds iff the task option is a valid range, the id count equals the real quotient `(last - first + step) / step`, and the first id has exactly one `.`; the result is the run id below |
| SgeTasks.GetRunId | python/saliweb/backend/cluster.py:63-70 | the corrected reading (floor division for the expected count, see Findings): succeeds iff the task option is a valid range, the id count matches and the first id has exactly one `.`; the result is the first id's prefix before `.` followed by `.first-last:step` |
| SgeTasks.RunIdMatchesTasks | python/saliweb/backend/cluster.py:65-68 | a run id is produced only when there is exactly one job id per task of the range |
| SgeTasks.RunIdParsesBack | python/saliweb/backend/cluster.py:69-70 | the range part of a run id, read as a `-t` option, gives back the same range |
| SgeTasks.RunIdExampleRange | python/saliweb/backend/cluster.py:69-70 | `foo.4`…`foo.10` with `-t 4-10:2` give `foo.4-10:2` |
| SgeTasks.RunIdExampleSteps | python/saliweb/backend/cluster.py:65-70 | three ids for a range of four tasks are refused with the count in the error |
| EventQueues.EventQueue.constructor | python/saliweb/backend/events.py:6-9 | a new queue is empty |
| EventQueues.EventQueue.Put | python/saliweb/backend/events.py:11-15 | appends exactly one item at the tail |
| EventQueues.EventQueue.Get | python/saliweb/backend/events.py:17-29 | an empty queue gives `None` and stays empty; otherwise it removes and returns exactly the head |
| EventQueues.PutAllThenDrain | python/saliweb/backend/events.py:11-29 | items come out in the order they were put, and the drained queue gives `None` again |
| EventQueues.InterleavedOrder | python/saliweb/backend/events.py:11-29 | get on empty, three puts and four gets give None, a, b, c, None |
| Submit.Filter | python/saliweb/frontend/submit.py:21 | keeps only `[A-Za-z0-9_-]` characters |
| Submit.FilterAppend | python/saliweb/frontend/submit.py:21 | filtering distributes over concatenation, so kept characters keep their order |
| Submit.FilterIdentity | python/saliweb/frontend/submit.py:21 | filtering changes nothing iff every character is allowed |
| Submit.FilterEmpty | python/saliweb/frontend/submit.py:21 | the filtered name is empty iff no character is allowed |
| Submit.Sanitize | python/saliweb/frontend/submit.py:16-24 | the result has at most 30 characters, all allowed |
| Submit.SanitizeDefault | python/saliweb/frontend/submit.py:19 | no name, or the empty name, gives `job` |
| Submit.SanitizeIsPrefixOfFilter | python/saliweb/frontend/submit.py:21-24 | a given name becomes the first min(30, n) characters of its filtered form |
| Submit.SanitizeAllDisallowed | python/saliweb/frontend/submit.py:19-21 | a non-empty name with no allowed character gives the empty name, because the default comes first |
| Submit.SanitizeIdempotent | python/saliweb/frontend/submit.py:16-24 | sanitising a sanitised name changes nothing, unless it was empty, when the default appears |
| Submit.SanitizeAllowedName | python/saliweb/frontend/submit.py:21-24 | a clean name is kept whole up to 30 characters and truncated after that |
| Submit.TrialJobNames | python/saliweb/frontend/submit.py:27-32 | the candidates are the sanitised name followed by fifty more |
| Submit.GetTrialJobNames | python/saliweb/frontend/submit.py:27-32 | the loop yields the sanitised name, then `<name>_<r>.<i>` for i = 0..49 |
| Submit.TrialJobNamesDistinct | python/saliweb/frontend/submit.py:27-32 | the candidates are pairwise distinct |
| Submit.TrialJobNamesHaveNoSlash | python/saliweb/frontend/submit.py:27-32 | no candidate contains `/`, so each names a directory inside the incoming directory |
| Submit.DottedInjective | python/saliweb/frontend/submit.py:31-32 | `<digits>.<x>` decomposes uniquely, which keeps the numbered candidates apart |
| Submit.TryJobName | python/saliweb/frontend/submit.py:35-46 | a name is taken iff the directory did not exist and the database had no such job before or after the `mkdir`; it is then the incoming directory joined with the name |
| Submit.TryJobNameCases | python/saliweb/frontend/submit.py:35-46 | each of the three refusal cases, and the success case |
| Submit.GetJobNameDirectory | python/saliweb/frontend/submit.py:49-60 | returns the first candidate the probe accepts, and errs with "Could not determine a unique job name" iff it accepts none |
| Submit.IncomingJob.constructor | python/saliweb/frontend/submit.py:94-99 | a new job has its name and directory and no URL or password |
| Submit.IncomingJob.Create | python/saliweb/frontend/submit.py:49-60 | `IncomingJob(given_name)` (lines 98-99) goes through this rule: creation fails, with "Could not determine a unique job name", iff the probe refuses every candidate; otherwise the job is named after the first accepted candidate, in that candidate's directory, with no URL or password yet |
| Submit.IncomingJob.GetPath | python/saliweb/frontend/submit.py:101-107 | a relative file lies inside the job directory, an absolute one is itself, and the path always ends in the file name |
| Submit.IncomingJob.ResultsUrl | python/saliweb/frontend/submit.py:109-116 | errs until `submit` has set a URL, then returns it |
| Submit.IncomingJob.Submit | python/saliweb/frontend/submit.py:118-129 | sets a 10-character alphanumeric password and the results URL built from it, and keeps name and directory |
| Submit.ResultsUrlLifecycle | python/saliweb/frontend/submit.py:109-129 | before submission the URL is an error, and afterwards it is the URL for the job's name and password |
| Frontend.FormatMatchesReference | python/saliweb/frontend/__init__.py:8-27 | the cascade of thresholds equals a unit-table definition: seconds under 120 s, minutes under 120 min, hours under 48 h, days under 48 days, with the count truncated |
| Frontend.FormatNoneCases | python/saliweb/frontend/__init__.py:12-27 | `None` exactly for a missing time, a time in the past, or one 48 days or more ahead |
| Frontend.FormatCountBounds | python/saliweb/frontend/__init__.py:17-26 | the count shown is below 120 (below 48 for hours and days), and at least 2 in every unit but seconds |
| Frontend.FormatExamples | python/saliweb/frontend/__init__.py:8-27 | 100 s, 10 min and 3 h render as in the tests; past and far-future times give `None` |
| Frontend.CopyAttributes | python/saliweb/frontend/__init__.py:30-40 | copies exactly the listed keys from the row, or fails on the first missing one |
| Frontend.QueuedJob.constructor | python/saliweb/frontend/__init__.py:30-33 | holds the given attributes |
| Frontend.QueuedJob.Create | python/saliweb/frontend/__init__.py:30-33 | keeps exactly `name`, `submit_time` and `state` of the row, with their values |
| Frontend.CompletedJob.constructor | python/saliweb/frontend/__init__.py:36-40 | holds the given attributes |
| Frontend.CompletedJob.Create | python/saliweb/frontend/__init__.py:36-40 | keeps exactly `name`, `passwd`, `archive_time` and `directory` of the row |
| Frontend.QueuedJobExample | python/saliweb/frontend/__init__.py:30-33 | a row with an extra column yields only the three queue attributes |
| Frontend.ConfigKey | python/saliweb/frontend/__init__.py:74-76 | a config key has no lower-case letter |
| Frontend.ConfigKeyForms | python/saliweb/frontend/__init__.py:74-76 | `NAME` for `[general]`, `SECTION_NAME` otherwise |
| Frontend.ReadConfig | python/saliweb/frontend/__init__.py:73-76 | the section loop writes what the fold over sections specifies |
| Frontend.WriteItems | python/saliweb/frontend/__init__.py:75-76 | the item loop writes what the fold over items specifies |
| Frontend.ApplyItemsLookup | python/saliweb/frontend/__init__.py:75-76 | after one section a key is present iff it was there before or was written; the last write wins |
| Frontend.ApplySectionsWritten | python/saliweb/frontend/__init__.py:73-76 | every item of every section ends up under its config key |
| Frontend.ApplySectionsUntouched | python/saliweb/frontend/__init__.py:73-76 | a key that no item produces keeps its old presence and value |
| MakeWebServices.DatabaseName | python/saliweb/make_web_service.py:95-110 | the user name is at most 16 characters, and it is `<short>_<type>end` unchanged when that fits |
| MakeWebServices.FitStep | python/saliweb/make_web_service.py:104-110 | one trimming step: the suffix loses its last character while it is longer than 2, and only then does the prefix shrink |
| MakeWebServices.MakeDatabaseName | python/saliweb/make_web_service.py:95-110 | the `while True` loop terminates with the specified name |
| MakeWebServices.DatabaseNameShape | python/saliweb/make_web_service.py:95-110 | the name is a prefix of the short name, `_`, and a prefix of `<type>end` |
| MakeWebServices.FrontAndBackDiffer | python/saliweb/make_web_service.py:95-110 | the frontend and backend user names always differ |
| MakeWebServices.DatabaseNameExamples | python/saliweb/make_web_service.py:95-110 | (`short`, `veryverylongtype`) and (`veryverylongname`, `back`) give the names the unit tests expect |
| MakeWebServices.MakeWebService.constructor | python/saliweb/make_web_service.py:81-92 | top directory, user and database all equal the short name, and the two database users are derived as above |
| MakeWebServices.NewServiceUsers | python/saliweb/make_web_service.py:81-92 | a new service gets two distinct database users of at most 16 characters |
| MakeWebServices.CheckOptionsIff | python/saliweb/make_web_service.py:427-433 | accepted iff there are two arguments, exactly one of `--svn`/`--git`, and a short name without space or capital; each refusal, a short name with a space or a capital included, has its message |
| Text.RandomAlnum | python/saliweb/make_web_service.py:143-145 | `n` characters, all ASCII letters or digits |
| Text.RandomAlnumOnto | account/account/util.py:165-168 | every alphanumeric string of length n is a possible result |
| Build.BuildNameShape | python/saliweb/build/__init__.py:38-40 | a build's name is its config file's basename without `.conf`, and has no `/` |
| Build.AddBuildVariable | python/saliweb/build/__init__.py:32-48 | the loop builds the map and default that the fold over config files specifies |
| Build.CollectBuilds | python/saliweb/build/__init__.py:36-43 | the same, for any naming function |
| Build.BuildMapLookup | python/saliweb/build/__init__.py:43 | a name is a key iff some config has it, and it maps to the last config with that name |
| Build.DefaultIsFirstNamed | python/saliweb/build/__init__.py:41-42 | the default is the first non-empty name, `""` when all are empty, and none without configs |
| Build.DefaultIsKey | python/saliweb/build/__init__.py:41-43 | the default build is always a key of the build map |
| Build.ServiceModuleIff | python/saliweb/build/__init__.py:239-247 | an explicit module is accepted iff it has no space and no capital; without one, the derived name is used |
| Build.DefaultModuleValid | python/saliweb/build/__init__.py:245-247 | the derived module name passes the explicit check |
| Build.DefaultModuleOfCapitals | python/saliweb/build/__init__.py:247 | `ModFoo` gives `modfoo` |
| Build.DefaultModuleOfSpaced | python/saliweb/build/__init__.py:247 | `MOD FOO` gives `mod_foo` |
| Build.Env.SetupServiceName | python/saliweb/build/__init__.py:239-247 | stores the service name, then the module name, or stops with the error after storing only the service name |
| Build.Env.SetupInstallDirectories | python/saliweb/build/__init__.py:250-260 | adds the nine layout entries and keeps every other entry |
| Build.InstallDirsDistinct | python/saliweb/build/__init__.py:250-260 | the nine layout directories are pairwise distinct |
| Build.FormatShellCommand | python/saliweb/build/__init__.py:472-477 | the command is prefixed with `/usr/bin/sudo -u <backend> ` iff `SUDO_USER` is set and differs from the backend user |
| Build.FormatShellCommandExamples | python/saliweb/build/__init__.py:472-477 | same user, no sudo user, and another user give the strings the unit tests expect |
| Build.CheckSqlUsernameLength | python/saliweb/build/__init__.py:559-568 | a user name is accepted iff it has at most 16 characters |
| Build.GeneratedUsersPass | python/saliweb/build/__init__.py:559-568 | the names `make_web_service` derives always pass that check |
| Build.WithSubdir | python/saliweb/build/__init__.py:803-804 | no subdirectory keeps the directory; a relative one goes below it, and an absolute one replaces it |
| Build.Targets | python/saliweb/build/__init__.py:775-798 | one target per file, each ending in its file name and placed below the directory when relative |
| Build.AdminToolTargets | python/saliweb/build/__init__.py:775-787 | one script per tool (the six defaults when none are given), plus `webservice.py` |
| Build.CgiScriptTargets | python/saliweb/build/__init__.py:789-798 | one target per CGI script (the seven defaults when none are given) |
| Build.InstallKindsApart | python/saliweb/build/__init__.py:801-861 | with a relative module and subdirectory, the six kinds of installed files go to six different directories |
| Build.InstallDirBelow | python/saliweb/build/__init__.py:801-861 | each kind's install directory lies below its layout entry |
| Build.FrontendEnvProperties | python/saliweb/build/__init__.py:919-931 | an unknown frontend is refused; otherwise the copy differs only in the frontend's own entries and has a separate CGI directory |
| Build.SubstLines | python/saliweb/build/__init__.py:864-884 | every line has each `"##CONFIG##"` replaced, and there are as many lines as before |
| Build.SubstituteLines | python/saliweb/build/__init__.py:870-884 | the line loop writes the substituted lines |
| Build.SubstLineCases | python/saliweb/build/__init__.py:870-884 | lines without the marker are copied unchanged; a line with one marker gets the arguments in its place |
| Build.SubstTestFile | python/saliweb/build/__init__.py:864-884 | the three-line file of the install tests is substituted as expected, for any arguments |
| Build.SubstInstallNoFrontend | python/saliweb/build/__init__.py:867-878 | without a frontend, the marker becomes `'mycfg', undef, 'myser', undef` for version `None` and `'mycfg', 'r345', 'myser', undef` for `r345`, as in the install tests |
| Build.SubstInstallWithFrontend | python/saliweb/build/__init__.py:867-878 | with the frontend `dummyfront`, the marker becomes `'mycfg', undef, 'myser', 'dummyfront'` for version `None` and `'mycfg', 'r345', 'myser', 'dummyfront'` for `r345` |
| Build.SubstPythonCases | python/saliweb/build/__init__.py:829-832 | in Python frontend files the marker becomes `'mycfg', None` for version `None` and `'mycfg', 'r345'` for `r345` |
| Build.SplitextRoot | python/saliweb/build/__init__.py:906 | `splitext(p)[0]` is a prefix of `p` |
| Build.SplitextPlain | python/saliweb/build/__init__.py:906 | `name.ext` loses exactly its extension |
| Build.PerlSubstValues | python/saliweb/build/__init__.py:901-917 | a Perl module named like a frontend gets that frontend's service name; others get the service's own and no frontend |
| Grants.Sort | python/saliweb/build/__init__.py:577 | the result is sorted and a permutation of the input |
| Grants.SortIsTheSort | python/saliweb/build/__init__.py:577 | any sorted permutation of the input is the result of `Sort` |
| Grants.SortedPermutationUnique | python/saliweb/build/__init__.py:577 | two sorted permutations of each other are equal |
| Grants.LessEqTotal | python/saliweb/build/__init__.py:577 | Python's string order is total |
| Grants.LessEqAntisymmetric | python/saliweb/build/__init__.py:577 | Python's string order is antisymmetric |
| Grants.LessEqTransitive | python/saliweb/build/__init__.py:577 | Python's string order is transitive |
| Grants.Split | python/saliweb/build/__init__.py:575 | `str.split(sep)` gives at least one piece, and no piece contains the separator |
| Grants.JoinSplit | python/saliweb/build/__init__.py:575-578 | joining the pieces with the separator gives back the string |
| Grants.SplitJoin | python/saliweb/build/__init__.py:575-578 | splitting a join of separator-free pieces gives back the pieces |
| Grants.Strip | python/saliweb/build/__init__.py:576 | `strip()` on a Python 2 byte string, whose white space is tab, line feed, vertical tab, form feed, carriage return and space: the result neither starts nor ends with white space, and is no longer than its input |
| Grants.StripPadded | python/saliweb/build/__init__.py:576 | one byte white-space character on each side of a stripped column is removed |
| Grants.StripKeepsOtherSpace | python/saliweb/build/__init__.py:576 | characters that are white space only to Unicode (no-break space, ideographic space, the separator `\x1c`) are kept, even when a space before them is stripped |
| Grants.StripKeepsMiddle | python/saliweb/build/__init__.py:576 | the stripped string is a slice of the input, and only white space is cut |
| Grants.GrantLine | python/saliweb/build/__init__.py:573 | `.` does not cross a newline: only the first line, with at most its own newline, can match |
| Grants.MatchGrant | python/saliweb/build/__init__.py:573 | a match splits the first line into a head ending at its first `(`, the middle, and a tail from its last `)`; there is no match only when no `)` follows a `(` |
| Grants.MatchRebuilt | python/saliweb/build/__init__.py:573 | a head, middle and tail of that shape match back into themselves |
| Grants.SortedGrant | python/saliweb/build/__init__.py:570-579 | a grant without `(` is returned unchanged |
| Grants.SortedGrantSortsColumns | python/saliweb/build/__init__.py:574-579 | a matching grant keeps head and tail, and its middle becomes the sorted, stripped columns joined with `, ` |
| Grants.JoinSpaced | python/saliweb/build/__init__.py:578 | joining with `, ` is joining with `,` after prefixing every column but the first with a space |
| Grants.ColumnsStable | python/saliweb/build/__init__.py:575-578 | splitting, stripping and sorting sorted clean columns that were joined with `, ` gives them back |
| Grants.ColumnsClean | python/saliweb/build/__init__.py:575-577 | the sorted stripped columns are clean: stripped, with no comma and no newline |
| Grants.SortedGrantIdempotent | python/saliweb/build/__init__.py:570-579 | sorting a sorted grant changes nothing |
| WebServices.NewParameter | python/saliweb/web_service.py:30-34 | keeps the name and help text; the parameter is optional iff the flag is exactly `'1'` |
| WebServices.FullArgRoundTrip | python/saliweb/web_service.py:35-42 | the usage text determines kind, name and optionality: `name=ARG` or `name=@FILENAME`, bracketed iff optional |
| WebServices.FullArgExamples | python/saliweb/web_service.py:49-51 | file parameters show `@FILENAME`; the strings the unit tests expect |
| WebServices.HelpLayout | python/saliweb/web_service.py:43-47 | the name left-justified to 20 columns, then the help text, then ` [optional]` iff optional |
| WebServices.HelpExamples | python/saliweb/web_service.py:43-51 | the help lines the unit tests expect |
| WebServices.CurlArgs | python/saliweb/web_service.py:92-96 | 2n arguments: `-F` at even positions and the arguments, in order, at odd ones |
| WebServices.DispatchIff | python/saliweb/web_service.py:107-133 | no command gives the short help; `info` acts iff it has exactly one argument; `submit` acts iff it has at least one, the URL then the field arguments; other commands do nothing |
| Accounts.CheckPassword | account/account/util.py:113-118 | `None` iff the length is 8..25 and the two passwords are equal; the length error takes precedence over the mismatch error |
| Accounts.ValidateSignUpIff | account/account/util.py:55-70 | the form passes iff academic is ticked, the password is good, every required field is filled, the user name has at most 25 characters and the other fields at most 40 |
| Accounts.ValidateSignUpOrder | account/account/util.py:55-70 | the academic check comes first, then the password, then required fields, then lengths, each with its own message |
| Accounts.RequiredFilled | account/account/util.py:63-65 | the required fields are user, first and last name, institution and e-mail |
| Accounts.LimitedLonger | account/account/util.py:66-70 | the fields limited to 40 characters are the names, institution, e-mail and modeller key |
| AdminJobs.Job.constructor | python/saliweb/backend/deljob.py:28 | a new job is neither deleted nor failed |
| AdminJobs.Job.Delete | python/saliweb/backend/deljob.py:28 | marks the job deleted and leaves its failures |
| AdminJobs.Job.AdminFail | python/saliweb/backend/failjob.py:36 | records one failure with its e-mail flag and leaves the deleted mark |
| AdminJobs.ConfirmedIff | python/saliweb/backend/deljob.py:25-27 | a reply confirms iff it is non-empty and its first character upper-cased is `Y` |
| AdminJobs.ConfirmedExamples | python/saliweb/backend/failjob.py:33-35 | `''`, `n`, `x` refuse; `y`, `Y`, `yes` confirm |
| DelJob.CheckValidState | python/saliweb/backend/deljob.py:31-37 | accepted iff the state is valid and either the daemon is stopped or the state is `FAILED` or `EXPIRED`; an invalid name is `InvalidStateError`, a running daemon a `ValueError` |
| DelJob.StoppedExamples | python/saliweb/backend/deljob.py:31-37 | with the daemon stopped, `garbage` and `failed` are not states and `FAILED`, `EXPIRED`, `COMPLETED` and `RUNNING` are accepted |
| DelJob.RunningExamples | python/saliweb/backend/deljob.py:31-37 | with the daemon running, `FAILED` and `EXPIRED` are accepted and `COMPLETED` and `RUNNING` are refused with the message naming them |
| DelJob.DeleteJob | python/saliweb/backend/deljob.py:21-28 | with force, no prompt and the job is deleted; otherwise the prompt is shown and the job is deleted iff the reply confirms |
| FailJob.FailJob | python/saliweb/backend/failjob.py:30-36 | with force, no prompt and `admin_fail(email)`; otherwise the prompt is shown and the job is failed iff the reply confirms; it never deletes |
| FailJob.CheckDaemonRunning | python/saliweb/backend/failjob.py:39-43 | an error iff a pid is present |
| FailJob.FindJob | python/saliweb/backend/failjob.py:46-51 | the loop returns the first hit over the states in order |
| FailJob.FirstHitIsFirst | python/saliweb/backend/failjob.py:46-51 | no hit iff no state has the job; otherwise the hit of the first state that has it |
| FailJob.ScanNames | python/saliweb/backend/failjob.py:59-64 | the name loop collects the found jobs and the not-found lines |
| FailJob.NotFoundIff | python/saliweb/backend/failjob.py:59-64 | "Could not find job NAME" is reported iff the name was asked for and no state has it |
| FailJob.EachNameOnce | python/saliweb/backend/failjob.py:59-64 | each name yields either one job or one report |
| FailJob.FailNamedJobs | python/saliweb/backend/failjob.py:54-64 | refused while the daemon runs; otherwise the jobs found for the names over all valid states, and the reports for the others |
| DeleteAllJobs.CheckNotRunning | python/saliweb/backend/delete_all_jobs.py:5-12 | an error iff the state file reads and gives a pid; an unreadable state file counts as not running |
| DeleteAllJobs.StripLineEndSplits | python/saliweb/backend/delete_all_jobs.py:31 | `rstrip('\r\n')` removes exactly the trailing run of CR and LF |
| DeleteAllJobs.StripLineEndOf | python/saliweb/backend/delete_all_jobs.py:31 | text not ending in CR or LF is recovered from itself plus any CR/LF run |
| DeleteAllJobs.DeleteAllIff | python/saliweb/backend/delete_all_jobs.py:15-35 | everything is deleted iff the daemon is not running and the reply is `YES` followed only by CR/LF; with the daemon stopped any other reply cancels |
| DeleteAllJobs.DeleteAllExamples | python/saliweb/backend/delete_all_jobs.py:26-35 | `YES\n` and `YES\r\n` delete; `yes`, `NO` and the empty reply cancel; a running daemon refuses |

## Left out

- The lock and the condition wait with a timeout in `_EventQueue` are not modelled: the model is the sequential queue.
- The DRMAA job waiter thread and the DRMAA session in `cluster.py` are not modelled, nor is the SLURM runner.
- The stub classes `Config`, `Database`, `WebService`, `Job` and `SGERunner` in `python/saliweb/backend/__init__.py` are not modelled; the admin tools' `Job` is reduced to a deleted mark and a list of failures.
- `get_valid_states` of the older `python/backend/state.py` is not modelled: it refers to a name-mangled attribute that does not exist at run time.
- The admin tools' terminal I/O is not modelled. The reply is an argument, and printing is a returned prompt or report. The `main` functions of `deljob` and `failjob` are modelled only as `FailNamedJobs` (the lookups and reports, without the per-job prompt loop) and the pieces above.
- Database access and directory creation are not modelled: `_get_job_name_directory` takes a `Probe` oracle per candidate, and the job row lookups are a `lookup` function.
- Randomness is not modelled: random numbers are an oracle (`pick`) or a sequence of drawn numbers.
- Frontend.FormatTimediff: it takes the number of seconds until the time instead of calling `utcnow`, and it uses exact reals rather than floating point.
- Case mapping (`lower`, `upper`) is ASCII only; Python's Unicode case mapping is not modelled.
- SgeTasks.Parse: `\d` matches ASCII digits only; Python 3 also matches other Unicode decimal digits. `\s` covers Python 3's full white-space set.
- The `ValueError` text of `get_run_id`, which prints the list of job ids and the expected count, is not modelled; `SgeTasks.RunIdError.UnexpectedJobCount` carries the number of ids received.
- Grants works on characters, where the Python 2 build sees the UTF-8 bytes of the grant text. Byte order on UTF-8 and code-point order agree, and `Grants.IsByteSpace` picks out the same six white-space characters.
- Build.SubstPythonCases follows `_subst_python_install` as written. Its test in `test/build/test_install.py` expects an unchanged file and a different WSGI stub, which the code does not produce.
- The build system's I/O is not modelled: SCons nodes and builders, file permissions, the WSGI and script file contents, `getfacl`, MySQL checks, and `sys.exit`, which becomes an `Err` result.
- The generator I/O of `make_web_service` (svn or git, templates, `pwd`) is not modelled.
- The REST client's `curl` subprocess and XML parsing are not modelled; `Dispatch` returns the action instead of running it.
- The account layer's Flask routes, cookies, database inserts and e-mail are not modelled; only the validation prefix of `create_account` is.
- Submit.IncomingJob.Submit: the database insert of the new job and the notice sent to the backend over its socket are not modelled; only the password and results URL that `submit` sets are.
- The frontend's missing-column `KeyError` is modelled as an `Err` naming the first missing key.
- Some tests disagree with the code and are not followed: test/pyfrontend/test_frontend.py:38 expects "100 days" for a time the code maps to `None`. The same holds for the install and make tests written against other versions.

## Findings

| source | as written | input that shows it | evidently intended | confidence | as-written member | corrected member |
|---|---|---|---|---|---|---|
| python/saliweb/backend/cluster.py:65-66 | the expected number of job ids is `(last - first + step) / step` with true division, so it is fractional when step does not divide `last - first` | `-t 1-10:2` with the five ids `7.1 7.3 7.5 7.7 7.9` (one per task SGE creates) is refused | floor division, the number of tasks in the range | not executed | SgeTasks.AsWrittenRejectsUnevenRange | SgeTasks.RunIdMatchesTasks |
