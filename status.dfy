/** The records the launcher reads from the store and its plugins, and the
    status values it compares. The full status vocabulary lives in the `task`
    layer; values the launcher never names are carried as `Other…(text)`. */
module Status {
  import opened Wrappers
  import Text
  import Seqs

  datatype ProcStatus =
    | NeedInputs | NeedToRun | JobRunning | Complete | JobFailed | NoData
    | OtherProc(text: string)

  /** The text the `task` layer stores for each status the launcher names;
      any other status is carried as its own text. */
  function ProcStatusText(s: ProcStatus): (t: string)
    ensures s.OtherProc? ==> t == s.text
  {
    match s
    case NeedInputs => "NEED_INPUTS"
    case NeedToRun => "NEED_TO_RUN"
    case JobRunning => "JOB_RUNNING"
    case Complete => "COMPLETE"
    case JobFailed => "JOB_FAILED"
    case NoData => "NO_DATA"
    case OtherProc(text) => text
  }

  /** A status value with a single spelling: `OtherProc` never carries the
      text of a named status. */
  predicate CanonicalProc(s: ProcStatus) {
    s.OtherProc? ==> s.text !in {"NEED_INPUTS", "NEED_TO_RUN", "JOB_RUNNING", "COMPLETE", "JOB_FAILED", "NO_DATA"}
  }

  datatype QcStatus =
    | JobPending | NeedsQa | Passed | Rerun | Reproc | DataAbsent
    | OtherQc(text: string)

  /** One row of the store's project assessor listing. */
  datatype AssessorInfo = AssessorInfo(
    assessorLabel: string,
    xsiType: string,
    procType: string,
    procStatus: ProcStatus,
    qcStatus: QcStatus,
    sessionLabel: string)

  /** One row of the store's session listing. `lastModified` is the store's
      timestamp in seconds; `lastUpdated` is the raw marker attribute, empty
      for a session never swept. */
  datatype SessionInfo = SessionInfo(sessionLabel: string, lastModified: int, lastUpdated: string)

  datatype Level = SessionLevel | ScanLevel

  /** A processor configuration: the assessor type and name it produces, and
      whether it runs per session or per scan. */
  datatype Processor = Processor(name: string, xsiType: string, level: Level)

  /** A module configuration, per session or per scan. */
  datatype Module = Module(name: string, level: Level)

  /** A work unit: a matched processor bound to an assessor. */
  datatype Task = Task(proc: Processor, assessor: AssessorInfo)

  /** The launcher types that change which phases may run and where tasks live. */
  const DISKQ_XNAT := "diskq-xnat"
  const DISKQ_CLUSTER := "diskq-cluster"
  const DISKQ_COMBINED := "diskq-combined"

  /** Build writes tasks into the disk queue instead of the store. */
  predicate BuildsIntoDiskQueue(launcherType: string) {
    launcherType == DISKQ_XNAT || launcherType == DISKQ_COMBINED
  }

  /** Update and launch read tasks from the disk queue instead of the store. */
  predicate ReadsDiskQueue(launcherType: string) {
    launcherType == DISKQ_CLUSTER || launcherType == DISKQ_COMBINED
  }

  /** Python truthiness of an optional string argument: given and non-empty. */
  predicate Given(arg: Option<string>) {
    arg.Some? && arg.value != ""
  }

  /** A session filter that names sessions: given and not "all" in any case. */
  predicate NamesSessions(sessionsLocal: Option<string>) {
    Given(sessionsLocal) && Text.Lower(sessionsLocal.value) != "all"
  }

  /** The labels a session filter names: its comma-separated pieces. */
  function NamedSessions(sessionsLocal: Option<string>): seq<string>
    requires NamesSessions(sessionsLocal)
  {
    Text.Split(sessionsLocal.value, ',')
  }

  /** Why a phase, a project or a call ends abnormally: raised exceptions and
      `exit(1)` calls of the launcher. */
  datatype Fault =
    | ForbiddenForLauncherType   // DaxLauncherError
    | MissingDaxDatatypes        // DaxXnatError
    | SeveralLocalProjects       // exit(1): a comma in the local project
    | ProjectNotInSettings       // exit(1)
    | LockHeld                   // exit(1): the phase's flag file exists
    | NoMatchingAssessors        // sys.exit(1) in get_assessors_list
    | UnknownProject(project: string)  // KeyError on the processor dict
    | LaunchFailure              // ClusterLaunchException
    | CountFailure               // ClusterCountJobsException
    | UnboundJobCount            // UnboundLocalError: serial mode never sets the job count
    | UpdateFailure              // a task's status update raised
    | BadModificationDelta       // the modification delta does not parse

  /** The assessor predicate a phase selects tasks with. */
  datatype TaskFilter =
    | Launchable
    | Updatable(openProc: set<ProcStatus>, openQa: set<QcStatus>)

  /** The stored processing status of `a` is the text of `s`: how the
      launcher compares statuses. */
  predicate ProcStatusIs(a: AssessorInfo, s: ProcStatus) {
    ProcStatusText(a.procStatus) == ProcStatusText(s)
  }

  /** `is_launchable_tasks` and `is_updatable_tasks`. The processing status
      is compared as the text the store holds, so a status carried as
      `OtherProc` with a named status's text counts as that status. */
  predicate Accepts(filter: TaskFilter, a: AssessorInfo) {
    match filter
    case Launchable => ProcStatusIs(a, NeedToRun)
    case Updatable(openProc, openQa) =>
      ProcStatusText(a.procStatus) in (set s | s in openProc :: ProcStatusText(s)) || a.qcStatus in openQa
  }

  /** The launch predicate holds exactly for the NEED_TO_RUN status, in
      either spelling, and for a canonical status exactly for `NeedToRun`. */
  lemma LaunchableIsNeedToRun(a: AssessorInfo)
    ensures Accepts(Launchable, a) <==> a.procStatus == NeedToRun || a.procStatus == OtherProc("NEED_TO_RUN")
    ensures CanonicalProc(a.procStatus) ==> (Accepts(Launchable, a) <==> a.procStatus == NeedToRun)
  {
  }

  /** The update predicate holds exactly when the processing status has the
      text of an open processing status, or the QA status is open; for
      canonical statuses the text comparison is plain membership. */
  lemma UpdatableIsOpen(openProc: set<ProcStatus>, openQa: set<QcStatus>, a: AssessorInfo)
    ensures Accepts(Updatable(openProc, openQa), a) <==>
      (exists s :: s in openProc && ProcStatusText(s) == ProcStatusText(a.procStatus)) || a.qcStatus in openQa
    ensures (CanonicalProc(a.procStatus) && forall s :: s in openProc ==> CanonicalProc(s)) ==>
      (Accepts(Updatable(openProc, openQa), a) <==> a.procStatus in openProc || a.qcStatus in openQa)
  {
    if CanonicalProc(a.procStatus) && forall s :: s in openProc ==> CanonicalProc(s) {
      forall s | s in openProc && ProcStatusText(s) == ProcStatusText(a.procStatus)
        ensures s == a.procStatus
      {
        CanonicalTextInjective(s, a.procStatus);
      }
    }
  }

  /** Two canonical statuses with the same text are the same status. */
  lemma CanonicalTextInjective(s: ProcStatus, s': ProcStatus)
    requires CanonicalProc(s) && CanonicalProc(s')
    requires ProcStatusText(s) == ProcStatusText(s')
    ensures s == s'
  {
  }

  /** Processors split by level, in configuration order. */
  function SessionProcessors(procs: seq<Processor>): seq<Processor> {
    Seqs.Filter((p: Processor) => p.level == SessionLevel, procs)
  }

  function ScanProcessors(procs: seq<Processor>): seq<Processor> {
    Seqs.Filter((p: Processor) => p.level == ScanLevel, procs)
  }
}
