# dax launcher: a verified model

This Dafny project models the launcher of dax (`dax/launcher.py`). The launcher
drives neuroimaging processing pipelines against an XNAT store and a compute
cluster, in three phases:

- **build** walks each project's sessions. It runs the project's modules and
  decides for each processor whether to create, rebuild, queue or leave
  alone its assessor.
- **update** refreshes the status of every open task.
- **launch** submits ready tasks to the cluster until the queue limit is
  reached.

Each phase takes a per-prefix flag-file lock unless it runs on one local
project. In the disk-queue launcher types (`diskq-xnat`, `diskq-cluster`,
`diskq-combined`), tasks live in a filesystem queue instead of the store.

Everything outside the launcher is a parameter: the store's listings, the
cluster's answers, the clock, the disk-queue listing and the processor
plugins. Times are whole seconds.

Modules:

| module | file | models |
|---|---|---|
| `Wrappers` | wrappers.dfy | `Option`, `Result` |
| `Seqs` | seqs.dfy | order-preserving filter (Python `filter` and list comprehensions) |
| `Text` | text.dfy | Python 2 `lower()`, `split(',')`, string order for `sorted()` |
| `Durations` | durations.dfy | `int()` and `str_to_timedelta` |
| `Status` | status.dfy | assessor, session and processor records, status values, launcher types, faults, the launch and update predicates |
| `Matching` | matching.dfy | `match_proc`, `generate_task`, `get_assessors_list`, `get_project_tasks` |
| `Ordering` | ordering.dfy | `get_sessions_list`, `get_project_list`, the sorted project list |
| `FlagFiles` | flagfiles.dfy | `lock_flagfile`, `unlock_flagfile`, marker paths |
| `Admission` | admission.dfy | `launch_tasks`, as written and corrected |
| `DiskQueue` | diskq.dfy | `load_task_queue` |
| `BuildRules` | buildrules.dfy | skip rule, last-updated marker, `has_new_processors`, module rounds, the per-processor decision tables, `build_session` |
| `Engine` | engine.dfy | the `Launcher` class: constructor, `init_script`, `finish_script`, `get_tasks`, `launch_jobs`, `update_tasks`, `build`, `build_project` |

Where the launcher's documentation and its code disagree, the model follows
the code, with one exception: the launch phase uses the corrected admission
loop described under Findings, and the loop as written is modelled beside it
(`Admission.AsWritten`, `Admission.LaunchTasks`), related to the corrected
one by `Admission.CorrectedStopsNoLater`. Otherwise:

- In write-only mode the code still asks the cluster for its job count.
  When that count fails, the launch returns normally without submitting
  anything.
- The last-updated marker is committed even when building the session
  raised. The commit depends only on the store's last-modified time and the
  build start time.
- The update phase has no per-task exception handler. The first update
  that raises ends the phase with the lock still held.
- The constructor ignores its `max_age` argument and uses the value from the
  settings.
- In the session filter, the value "all" (in any case) means no filter for
  listing and for afterrun. It still counts as a filter for the skip rule
  and for the prerun settings name.

## Model

| member | source | states |
|---|---|---|
| Durations.StrToTimedelta | dax/launcher.py:30-44 | a string of length at most 1 is an error; the result succeeds exactly when the last character is s, m, h or d and `int()` accepts the rest; the value is that integer times 1, 60, 3600 or 86400 seconds; the prefix is parsed before the unit is checked |
| Durations.DurationRoundTrip | dax/launcher.py:34-42 | any integer written out and followed by a unit parses back to that many units |
| Durations.DurationExamples | dax/launcher.py:30-44 | "3d" is 259200 seconds; "x" and "0" fail; "3x" has an unknown unit; "xd" fails on its integer |
| Durations.IntRoundTrip | dax/launcher.py:34 | `int()` reads back the decimal form of every integer |
| Status.LaunchableIsNeedToRun | dax/launcher.py:200-208 | `is_launchable_tasks` compares the stored text: it accepts exactly the NEED_TO_RUN status, whether carried as `NeedToRun` or as `OtherProc("NEED_TO_RUN")`, and for a canonical status exactly `NeedToRun` |
| Status.UpdatableIsOpen | dax/launcher.py:341-352 | `is_updatable_tasks` accepts exactly an assessor whose processing status has the text of an open processing status, or whose QA status is open; for canonical statuses this is plain membership |
| Status.CanonicalTextInjective | dax/launcher.py:208 | two canonical statuses with the same stored text are the same status |
| Matching.FirstMatch | dax/launcher.py:949-971 | the index found is the first processor whose assessor type and name equal the assessor's; none exactly when no processor matches |
| Matching.MatchProc | dax/launcher.py:949-971 | a processor is found iff either list has a match; any session-level match wins, and it is the first one; otherwise the first scan-level match |
| Matching.MatchPrefersFirstSessionProcessor | dax/launcher.py:959-969 | with two matching session processors and a matching scan processor, the first session processor is chosen |
| Matching.SelectTasksMembers | dax/launcher.py:939-994 | a task is selected iff its assessor is listed, passes the phase's predicate (`is_launchable_tasks`: NEED_TO_RUN; `is_updatable_tasks`: an open processing or QA status), and its processor is the one `match_proc` returns; an unmatched assessor yields no task |
| Matching.SelectTasksAppend | dax/launcher.py:939-944 | task selection keeps assessor order: selecting from a concatenation concatenates the selections |
| Matching.GetAssessorsList | dax/launcher.py:996-1019 | a filter naming sessions keeps exactly the assessors of those sessions, and an empty result is the `NoMatchingAssessors` exit; no filter or "all" keeps every assessor |
| Matching.GetProjectTasks | dax/launcher.py:916-946 | the loop returns the tasks of the listed assessors, in order, or the listing's error |
| Ordering.GetSessionsList | dax/launcher.py:1021-1048 | the loop returns the never-swept sessions in listing order, then every session whose label is not a never-swept label, in listing order, after the session filter |
| Ordering.SessionOrderNeverSweptFirst | dax/launcher.py:1040-1046 | no swept session comes before a never-swept one |
| Ordering.SessionOrderPermutation | dax/launcher.py:1040-1046 | with unique labels the reordering is a permutation of the listing |
| Ordering.SessionOrderExample | dax/launcher.py:1040-1046 | sessions A (never swept), B (swept), C (never swept) are visited as A, C, B |
| Ordering.SessionOrderDropsSweptDuplicate | dax/launcher.py:1042-1045 | a swept session that shares its label with a never-swept one is dropped |
| Ordering.GetProjectList | dax/launcher.py:1050-1059 | the priority list comes first, verbatim; the rest are the projects of the full list not in it, in their order; nothing else appears |
| Ordering.ProjectListWithoutPriority | dax/launcher.py:1050-1059 | with no priority list the project list is the full list, unchanged |
| Ordering.ProjectListExample | dax/launcher.py:1050-1059 | priority [b] over the full list [a, b, c] gives [b, a, c] |
| Ordering.ProjectListDistinct | dax/launcher.py:1050-1059 | two duplicate-free lists give a duplicate-free project list |
| Ordering.SortedKeys | dax/launcher.py:834-836 | the loop returns the key set in strictly increasing string order |
| Text.StrictlySortedUnique | dax/launcher.py:834-836 | a strictly increasing list is determined by its elements, so `sorted()` of a key set has exactly one result |
| Text.JoinSplit | dax/launcher.py:1012 | `split(',')` loses nothing: joining its pieces with commas gives the original filter string |
| Text.SplitJoin | dax/launcher.py:1033-1035 | a session filter written as comma-separated labels names exactly those labels, in order |
| Text.Insert | dax/launcher.py:836 | inserting into a strictly sorted list keeps it strictly sorted and adds exactly the new element |
| FlagFiles.FlagDir.Lock | dax/launcher.py:859-871 | returns false and changes nothing when the marker exists; otherwise creates it and returns true |
| FlagFiles.FlagDir.Unlock | dax/launcher.py:873-882 | removes the marker if present; otherwise nothing changes |
| FlagFiles.LockLock | dax/launcher.py:859-871 | two locks in a row on a free marker return true, then false |
| FlagFiles.UnlockLock | dax/launcher.py:859-882 | an unlock followed by a lock always returns true |
| FlagFiles.PhaseMarkersDistinct | dax/launcher.py:23-25 | the build, update and launch markers of one prefix are different files |
| Admission.TaskList.Pop | dax/launcher.py:236 | removes and returns the last task |
| Admission.PopOrder | dax/launcher.py:235-236 | the k tasks popped are the last k tasks, last first |
| Admission.FirstFault | dax/launcher.py:264-277 | the first submission that fails or is followed by a failed count, or the list length when there is none |
| Admission.LaunchTasks | dax/launcher.py:210-277 | the loop as written pops exactly the tasks of `AsWritten` and leaves the rest of the list in place |
| Admission.InitialCountFailure | dax/launcher.py:226-229 | an initial count of -1 submits nothing and returns normally |
| Admission.FullQueueSubmitsNothing | dax/launcher.py:235 | an initial count at or above the limit, without write-only mode, submits nothing and returns normally |
| Admission.FullQueueExample | dax/launcher.py:235 | limit 5 with 5 jobs queued and two tasks ready submits nothing |
| Admission.RereadCountIgnored | dax/launcher.py:275-277 | the values of the counts read after submissions never change the run, only whether they are -1 |
| Admission.FirstFaultSameFailures | dax/launcher.py:275-277 | the first fault depends only on where the counts are -1 |
| Admission.WriteOnlySubmitsAll | dax/launcher.py:235-236 | in write-only mode with no failures every task is popped, last first |
| Admission.FailureStopsLoop | dax/launcher.py:264-277 | a raised failure comes from the last task popped; every earlier task was submitted and followed by a good count; a normal end that popped anything emptied the list |
| Admission.AsWrittenOverfillsQueue | dax/launcher.py:226-277 | limit 5, four jobs queued, three tasks, counts 5, 6, 7 read back: as written all three are submitted; with the count fed back, one |
| Admission.LaunchTasksCorrected | dax/launcher.py:210-277 | the loop that stores each re-read count pops exactly the tasks of `Corrected` |
| Admission.CorrectedFrom | dax/launcher.py:235-277 | the corrected run pops at least the tasks already popped and at most the whole list |
| Admission.CorrectedFromWithinFirstFault | dax/launcher.py:235-277 | from a submission before the first fault, the corrected loop pops a prefix of the pop order, at most one task past the fault, and raises only at the first fault, with that fault's kind |
| Admission.CorrectedStopsNoLater | dax/launcher.py:226-277 | the corrected loop submits a prefix of what the loop as written submits, and when it raises both runs are identical |
| Admission.CorrectedKeepsCeiling | dax/launcher.py:235 | outside write-only mode, every corrected submission happens while the most recent count is below the limit, and a normal end with tasks left saw the limit reached |
| DiskQueue.LastDot | dax/launcher.py:1149 | the index of the last dot of a file name, if any |
| DiskQueue.Root | dax/launcher.py:1149 | `splitext` root of a file name: a prefix of the name, cut at the last dot exactly when a non-dot character precedes that dot |
| DiskQueue.RootOfBatchFile | dax/launcher.py:1149 | a batch file named after its task with a one-dot extension yields its id |
| DiskQueue.AllTasks | dax/launcher.py:1145-1150 | one task per listed file, in listing order |
| DiskQueue.LoadTaskQueue | dax/launcher.py:1139-1157 | the loop returns the listed tasks the filter keeps, in listing order |
| DiskQueue.LoadRoundTrip | dax/launcher.py:1153-1155 | a task whose status reads X is loaded by a load filtered by X, and by a load filtered by Y only when Y is X |
| DiskQueue.LoadUnfilteredKeepsAll | dax/launcher.py:1153 | without a filter, or with an empty one, every listed task is loaded in order |
| DiskQueue.LoadOnlyMatching | dax/launcher.py:1153 | every task of a filtered load has the filter's status |
| BuildRules.LastUpdatedStamp | dax/launcher.py:1061-1074 | no stamp exactly when the field is no longer than the prefix; otherwise the text past the prefix's length, which is not empty |
| BuildRules.MarkerRoundTrip | dax/launcher.py:1061-1105 | a marker written as prefix plus stamp reads back as that stamp |
| BuildRules.CommitLastUpdated | dax/launcher.py:1076-1112 | a new marker is set exactly when the session was not modified after the build started and the store accepts the write (a refused write is caught and leaves none), and then carries now plus one minute |
| BuildRules.ModifiedSinceMarkerIsBuilt | dax/launcher.py:450-460 | under the marker rule, a session never marked or modified at or after its marker is built |
| BuildRules.OldSessionIsRebuilt | dax/launcher.py:450-460 | under the marker rule, a session last modified at least the maximum age ago is built |
| BuildRules.SkipSession | dax/launcher.py:449-472 | a session skipped under the marker rule has a marker later than its last modification and was modified within the maximum age; a session skipped under the delta rule has a given non-zero delta and was last modified more than the delta ago |
| BuildRules.FilterDisablesTracking | dax/launcher.py:449-472 | any session filter, "all" included, leaves only the delta rule: skip iff a non-zero delta is given and now is past last-modified plus delta |
| BuildRules.NoDeltaBuildsAll | dax/launcher.py:464-472 | outside the marker rule, no delta or a zero delta builds every session |
| BuildRules.CommittedSessionIsSkipped | dax/launcher.py:1093-1105 | a committed session whose marker write lands within the minute is skipped by the next sweep inside the age window |
| BuildRules.SlowMarkerWriteRebuilds | dax/launcher.py:1093-1105 | a marker write landing a minute or more late makes the next sweep build the session again |
| BuildRules.RefusedMarkerWriteRebuilds | dax/launcher.py:1103-1110 | a marker write the store refuses leaves no marker, so the next sweep under the marker rule builds the session again |
| BuildRules.HasNewProcessors | dax/launcher.py:1114-1136 | true iff some prescribed processor name is the processor type of no assessor of the project |
| BuildRules.AfterrunUnlessSessionsNamed | dax/launcher.py:420-509 | afterrun runs iff the filter names no sessions; the filter "all" makes prerun a manual update and still runs afterrun |
| BuildRules.ModuleRounds | dax/launcher.py:530-547 | between one and three rounds; every round before the last modified the session; fewer than three rounds means the last round did not modify it |
| BuildRules.ConvergeModules | dax/launcher.py:530-547 | the module loop runs exactly `ModuleRounds` rounds |
| BuildRules.FirstWithLabel | dax/launcher.py:579-583 | the first assessor with the label, none iff no assessor has it |
| BuildRules.LastWithLabel | dax/launcher.py:679-683 | the last assessor with the label, none iff no assessor has it |
| BuildRules.FindFirstAssessor | dax/launcher.py:579-583 | the lookup loop with `break` finds the first match |
| BuildRules.FindLastAssessor | dax/launcher.py:679-683 | the lookup loop without `break` finds the last match |
| BuildRules.FirstIsLastForUniqueLabels | dax/launcher.py:579-683 | with unique labels the two lookups agree |
| BuildRules.LookupsDifferOnDuplicateLabels | dax/launcher.py:579-683 | with two assessors of one label, the session lookup sees the first and the scan lookup the last |
| BuildRules.Decide | dax/launcher.py:572-734 | nothing happens when the processor should not run; processing statuses are compared by their stored text; in disk-queue modes a task is queued iff no assessor exists, its status reads NEED_INPUTS, it reads NEED_TO_RUN (scan level only), or its QA status is RERUN or REPROC, and it is refreshed first exactly in the last case; in store-direct modes a status is written iff no assessor exists or its status reads NEED_INPUTS: has_inputs 1 gives NEED_TO_RUN and JOB_PENDING, -1 gives NO_DATA and the returned QA status, other values only the QA status |
| BuildRules.BuildSessionProcessors | dax/launcher.py:561-632 | one decision per session processor, in order, using the first assessor with the processor's assessor name |
| BuildRules.BuildScanProcessors | dax/launcher.py:659-734 | one decision per scan processor, in order, using the last assessor with the processor's assessor name |
| BuildRules.StoreDirectWritesOnlyNewOrWaiting | dax/launcher.py:579-611 | in store-direct modes a running session processor writes a status iff no assessor has its name or the first one with its name has a status whose text is NEED_INPUTS |
| BuildRules.TextCarriedNeedInputsIsBuilt | dax/launcher.py:579-611 | an assessor whose status is carried as the text NEED_INPUTS is acted on like one that needs inputs: with inputs ready a store-direct build writes NEED_TO_RUN and JOB_PENDING, and a disk-queue build queues it |
| BuildRules.ScanRebuildsWhatSessionLeaves | dax/launcher.py:585-706 | in disk-queue modes an assessor whose status reads NEED_TO_RUN is rebuilt by a scan processor and left alone by a session processor |
| BuildRules.BuildSession | dax/launcher.py:511-559 | the module rounds, then one decision list per scan (only when there are scan processors), then the session processors' decisions |
| Engine.ParseSkipFlag | dax/launcher.py:91-94 | tracking is skipped iff the value is given and starts with y or Y |
| Engine.SkipFlagExamples | dax/launcher.py:91-94 | "yes" and "Y" skip; "no", "", no value and " yes" do not |
| Engine.AddMissingKeys | dax/launcher.py:111-117 | the keys become the union; existing entries are unchanged; each added key maps to an empty list |
| Engine.Launcher.constructor | dax/launcher.py:57-117 | both project dictionaries get the same key set, the union of the two, with empty lists added and existing entries kept; the skip flag is parsed; the maximum age comes from the settings |
| Engine.DeltaOf | dax/launcher.py:436-439 | no delta when none is given; a given delta that does not parse is an error; one that parses is its value in seconds |
| Engine.UpdateStatuses | dax/launcher.py:311-332 | tasks are updated in order; the first update that raises stops the loop |
| Engine.Launcher.LocalProject | dax/launcher.py:812-827 | a comma is an error, a project in the settings is the whole list, any other project is an error |
| Engine.Launcher.InitScript | dax/launcher.py:801-839 | a local project bypasses the lock; otherwise a held lock is an error and leaves the markers alone, and a free lock is taken and the sorted union of the settings keys returned |
| Engine.Launcher.FinishScript | dax/launcher.py:841-857 | the lock is released unless the run was on a local project |
| Engine.Launcher.CollectTasks | dax/launcher.py:884-946 | the only errors are an unknown project and an empty session match |
| Engine.Launcher.GetTasks | dax/launcher.py:884-914 | the loop concatenates the projects' task lists in project order; with an empty project list the priority projects come first |
| Engine.Launcher.CollectTasksMembers | dax/launcher.py:906-912 | a successful walk holds a task iff some walked project's own task list holds it |
| Engine.Launcher.UnknownProjectAborts | dax/launcher.py:906-932 | a project missing from the settings anywhere in the list makes the walk fail |
| Engine.Launcher.PriorityWithoutSettingsFails | dax/launcher.py:898-932 | with no project configured and a priority list, the default walk fails on the first priority project |
| Engine.Launcher.KnownProjectsNeverUnknown | dax/launcher.py:906-932 | a walk over configured projects only fails, if at all, on a session filter that matches nothing |
| Engine.Launcher.DefaultWalkKnowsProjects | dax/launcher.py:898-932 | when every priority project is configured, the default walk never fails on an unknown project; with nothing configured and no priority list it finds no tasks |
| Engine.Launcher.LaunchJobs | dax/launcher.py:138-198 | forbidden for diskq-xnat with nothing changed; a lock held by another run fails it with `LockHeld` and changes no flag file, and a refused local project fails it with the refusal; disk-queue types launch the loaded NEED_TO_RUN tasks without write-only mode; other types launch the launchable store tasks; the lock is released only on a normal end and stays held after any later failure; once the lock is taken, the admission run decides the phase: a failed submission fails it with `LaunchFailure`, a failed count re-read with `CountFailure`, and otherwise the phase succeeds and reports the run; a store walk error fails it with that error |
| Engine.Launcher.OpenTaskCount | dax/launcher.py:305-327 | the update phase walks every queued task, or the open tasks of the store projects |
| Engine.Launcher.UpdateProjects | dax/launcher.py:305-332 | on success every task was updated; a failure is the project walk's error, or the first update that raised, at an index below the open-task count, every earlier update having returned normally; conversely a walk error is returned as is, updates that all return normally give success with the open-task count, and a raising update gives `UpdateFailure` |
| Engine.Launcher.UpdateTasks | dax/launcher.py:281-339 | forbidden for diskq-xnat; a lock held by another run fails it with `LockHeld` and changes no flag file, and a refused local project fails it with the refusal; the lock is released only when every update returned normally; once the lock is taken the outcome is fixed by the open-task walk of the projects `init_script` returned: its error fails the phase, a raising update fails it with `UpdateFailure`, and updates that all return normally make it succeed with those projects and the open-task count |
| Engine.Launcher.SessionStep | dax/launcher.py:448-499 | a marker is written only with tracking on, only when the session was not modified after the build started and only when the store accepts the write, and then it is now plus one minute; a session is skipped exactly when the skip rule holds for it, with tracking on unless the skip flag is set and the marker read from its last-updated field; a skipped session gets no marker |
| Engine.Launcher.BuildProject | dax/launcher.py:409-509 | a project missing from the settings fails; a bad delta fails; otherwise the prerun name, every listed session's step, and whether afterrun runs |
| Engine.Launcher.BuildProjects | dax/launcher.py:395-404 | every project is built in turn, a failing one recorded without stopping the phase |
| Engine.Launcher.BuildAll | dax/launcher.py:389-404 | with a priority list and no local project the projects are the priority list followed by the other keys in walk order, otherwise the list `init_script` returned; every project is then built in turn and its result recorded |
| Engine.Launcher.Build | dax/launcher.py:355-407 | forbidden for diskq-cluster; a lock held by another run fails it with `LockHeld` and changes no flag file, and a refused local project fails it with the refusal; with a priority list and no local project, the priority projects come first; the lock is released only on a normal end; once the lock is taken the phase succeeds exactly when the store has the DAX datatypes, reporting every project's build result in that order, and fails with `MissingDaxDatatypes` otherwise |

## Left out

- XNAT access (listings, full objects, attribute reads and writes) is given as `Engine.Store` values. The object cache of a session and its reload between module rounds are not modelled.
- Cluster calls (`count_jobs`, `command_found`) and `Task.launch` are given as `Engine.Cluster` values.
- The `task` module (`Task`, `ClusterTask`, `XnatTask`, `build_task`, `update_status`, the open status lists) is not part of this model. Its answers are parameters, and the open lists are given as sets.
- Processor and module plugins (`processors_by_type`, `modules_by_type`, `should_run`, `get_assessor_name`, `has_inputs`, `needs_run`, `run`, `prerun`, `afterrun`) are not part of this model. Their answers are given as `BuildRules.PluginAnswer` values, and `processors_by_type` is a split by level.
- Running the modules in a round (`build_session_modules`, `build_scan_modules`) is left out. Only the round count is modelled.
- Engine.Launcher.BuildProject: it does not model what building a session does. `BuildRules.BuildSession` models that separately. A session build's failures are caught in the source and do not change the commit.
- The status writes of a store-direct build are returned as actions. They are not applied to the assessor listing, so a later processor of the same session does not see them.
- Creating directories, credentials, environment variables, the REDCap date upload and logging are left out.
- Dates are whole seconds. Parsing and formatting with `%Y-%m-%d %H:%M:%S`, and a malformed date aborting a project, are left out. A stamp is turned into seconds by a `parseStamp` parameter.
- Python 2 dictionary and set iteration order is unspecified. Where it matters, it is a parameter (`keyOrder`, `unionOrder`), required to list each key of the dictionary (or of the union of both dictionaries) exactly once.
- The processing status texts are those of the `task` module's constant names (`NEED_TO_RUN` and so on); the `task` module is not part of this model, so any other spelling it might use is not captured.
- QA statuses are compared as values, not as text: an `OtherQc` value carrying the text of a named QA status is not identified with it, because the QA texts belong to the `task` module.
- The source mutates the caller's dictionaries in place; the model builds new maps, so it does not capture that aliasing.
- `int()` in the model accepts leading and trailing whitespace and one sign. It does not accept whitespace between the sign and the digits, underscores or a long suffix.
- Durations are unbounded integers, so `timedelta` overflow is not modelled.
- The serial `force_no_qsub` mode is modelled only as the error it raises: the job count is never set, so the loop test fails.
- Engine.Launcher.LaunchJobs: it uses the corrected admission loop (see Findings). The as-written loop is `Admission.LaunchTasks`.
- Engine.Launcher.BuildProject: when the delta does not parse, module prerun has already run, but the result only reports the failure.

## Findings

| source | as written | input that shows it | evidently intended | confidence | as-written member | corrected member |
|---|---|---|---|---|---|---|
| dax/launcher.py:226-277 | the loop test compares only the job count read before the loop with the queue limit; the count read after each submission (line 275) is checked for -1 and then discarded | queue limit 5, 4 jobs queued, 3 ready tasks, every submission succeeds, the cluster reports 5, 6, 7 jobs after them: all 3 tasks are submitted, the last two while the queue is at or over the limit | feed each re-read count back into the loop test so that submissions stop once the queue reaches the limit | not executed | Admission.AsWrittenOverfillsQueue | Admission.CorrectedKeepsCeiling |
