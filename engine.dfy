/** The launcher object and its three phases, launch, update and build,
    over the store, the cluster, the disk queue and the flag files, which
    are all passed in. */
module Engine {
  import opened Wrappers
  import opened Status
  import Text
  import Durations
  import Matching
  import Ordering
  import FlagFiles
  import DiskQueue
  import Admission
  import BuildRules
  import Seqs

  /** The store as a phase reads it: whether the launcher's datatypes are
      installed, each project's assessor listing and each project's session
      listing. */
  datatype Store = Store(
    hasDaxDatatypes: bool,
    assessors: string -> seq<AssessorInfo>,
    sessions: string -> seq<SessionInfo>)

  /** The cluster as the admission loop sees it: the count before the loop,
      whether the i-th submission succeeds, and the count read after it. */
  datatype Cluster = Cluster(initialCount: int, launchOk: nat -> bool, jobCount: nat -> int)

  /** The disk queue: the batch directory listing and the status each task reads back. */
  datatype QueueDir = QueueDir(listing: seq<string>, statusOf: string -> string)

  /** The clock and store readings around one session of a build: the time of
      the skip test, the build start, the last-modified time the commit
      reads, the time the commit runs, and whether the store accepts the
      marker write (a write that raises is caught and logged). */
  datatype SessionClock = SessionClock(now: int, buildStart: int, lastModifiedAtCommit: int, commitNow: int,
                                       markerWriteOk: bool)

  /** The status a disk-queue launch selects. */
  const NEED_TO_RUN := Status.ProcStatusText(Status.NeedToRun)

  /** What a launch did: the projects it resolved and the admission run. */
  datatype LaunchReport =
    | FromQueue(projects: seq<string>, queued: Admission.Run<DiskQueue.QueuedTask>)
    | FromStore(projects: seq<string>, tasks: Admission.Run<Task>)

  /** How the launch phase ends once its admission run is over: a failed
      submission or a failed count re-read raises out of the phase (so the
      lock stays held); otherwise the phase reports the run. */
  function Settle(outcome: Admission.Outcome, report: LaunchReport): (r: Result<LaunchReport, Fault>)
    ensures r.Success? <==> !Admission.Raised(outcome)
    ensures r.Success? ==> r.value == report
    ensures outcome == Admission.LaunchFailed ==> r == Failure(LaunchFailure)
    ensures outcome == Admission.CountFailed ==> r == Failure(CountFailure)
  {
    match outcome
    case LaunchFailed => Failure(LaunchFailure)
    case CountFailed => Failure(CountFailure)
    case _ => Success(report)
  }

  /** What an update did: the projects it resolved and how many tasks it updated. */
  datatype UpdateReport = UpdateReport(projects: seq<string>, updated: nat)

  /** What happened to one session of a build. */
  datatype SessionBuild =
    | SessionSkipped(sessionLabel: string)
    | SessionBuilt(sessionLabel: string, marker: Option<int>)

  /** What happened to one project of a build. */
  datatype ProjectBuild = ProjectBuild(prerunName: string, sessions: seq<SessionBuild>, afterrun: bool)

  datatype BuildReport = BuildReport(projects: seq<string>, results: seq<Result<ProjectBuild, Fault>>)

  /** `order` lists each key of `keys` exactly once: the order in which a
      dictionary or set yields its keys. */
  ghost predicate EnumeratesKeys(order: seq<string>, keys: set<string>) {
    Seqs.Distinct(order) && forall p :: p in order <==> p in keys
  }

  /** The `skip_lastupdate` option: on only for a value whose first letter is y or Y. */
  function ParseSkipFlag(flag: Option<string>): (skip: bool)
    ensures skip <==> flag.Some? && |flag.value| > 0 && (flag.value[0] == 'y' || flag.value[0] == 'Y')
  {
    Given(flag) && Text.Lower(flag.value)[0] == 'y'
  }

  /** "yes" and "Y" turn tracking off; "no", an empty value, no value, and
      a value with a leading space leave it on. */
  lemma SkipFlagExamples()
    ensures ParseSkipFlag(Some("yes")) && ParseSkipFlag(Some("Y"))
    ensures !ParseSkipFlag(Some("no")) && !ParseSkipFlag(Some("")) && !ParseSkipFlag(None)
    ensures !ParseSkipFlag(Some(" yes"))
  {
  }

  /** The constructor loops: every key of `keys` missing from `dict` gets an
      empty list; nothing else changes. */
  method AddMissingKeys<V>(dict: map<string, seq<V>>, keys: set<string>) returns (r: map<string, seq<V>>)
    ensures r.Keys == dict.Keys + keys
    ensures forall k :: k in dict ==> r[k] == dict[k]
    ensures forall k :: k in keys && k !in dict ==> r[k] == []
  {
    r := dict;
    var todo := keys;
    while todo != {}
      invariant todo <= keys
      invariant r.Keys == dict.Keys + (keys - todo)
      invariant forall k :: k in dict ==> r[k] == dict[k]
      invariant forall k :: k in keys - todo && k !in dict ==> r[k] == []
      decreases todo
    {
      var k :| k in todo;
      if k !in r {
        r := r[k := []];
      }
      todo := todo - {k};
    }
  }

  /** The status updates of the update phase: tasks are updated in order and
      the first one that raises ends the loop. The result is how many were
      updated. */
  method UpdateStatuses(count: nat, updateOk: nat -> bool) returns (updated: nat)
    ensures updated <= count
    ensures forall i :: 0 <= i < updated ==> updateOk(i)
    ensures updated < count ==> !updateOk(updated)
  {
    updated := 0;
    while updated < count
      invariant updated <= count
      invariant forall i :: 0 <= i < updated ==> updateOk(i)
    {
      if !updateOk(updated) {
        return;
      }
      updated := updated + 1;
    }
  }

  /** The update phase stopped inside the count: some open task's update
      raised, and every update before it returned normally. */
  predicate FirstFailedUpdate(count: Result<nat, Fault>, updateOk: nat -> bool) {
    count.Success? && exists i :: 0 <= i < count.value && !updateOk(i) && forall j :: 0 <= j < i ==> updateOk(j)
  }

  function ProcNames(procs: seq<Processor>): (names: seq<string>)
    ensures |names| == |procs| && forall i :: 0 <= i < |procs| ==> names[i] == procs[i].name
  {
    seq(|procs|, i requires 0 <= i < |procs| => procs[i].name)
  }

  function ProcTypes(assessors: seq<AssessorInfo>): (types: seq<string>)
    ensures |types| == |assessors| && forall i :: 0 <= i < |assessors| ==> types[i] == assessors[i].procType
  {
    seq(|assessors|, i requires 0 <= i < |assessors| => assessors[i].procType)
  }

  /** The modification delta of a build: none when not given, its seconds
      when it parses, an error otherwise. */
  function DeltaOf(modDelta: Option<string>): (r: Result<Option<int>, Fault>)
    ensures r.Failure? <==> Given(modDelta) && Durations.StrToTimedelta(modDelta.value).Failure?
    ensures r.Failure? ==> r.error == BadModificationDelta
    ensures r.Success? ==> (r.value.Some? <==> Given(modDelta))
    ensures r.Success? && Given(modDelta) ==> r.value.value == Durations.StrToTimedelta(modDelta.value).value
  {
    if !Given(modDelta) then Success(None)
    else match Durations.StrToTimedelta(modDelta.value)
      case Success(seconds) => Success(Some(seconds))
      case Failure(_) => Failure(BadModificationDelta)
  }

  /** The time a session's last-updated marker names: none when the field
      holds no stamp, otherwise the stamp as `parseStamp` reads it. */
  function MarkerTime(field: string, parseStamp: string -> int): (t: Option<int>)
    ensures t.None? <==> |field| <= |BuildRules.UPDATE_PREFIX|
  {
    match BuildRules.LastUpdatedStamp(field)
    case None => None
    case Some(stamp) => Some(parseStamp(stamp))
  }

  /** Prefix `tasks` to a successful result; keep a failure. */
  function Prepend(tasks: seq<Task>, r: Result<seq<Task>, Fault>): Result<seq<Task>, Fault> {
    match r
    case Failure(e) => Failure(e)
    case Success(more) => Success(tasks + more)
  }

  class Launcher {
    const processDict: map<string, seq<Processor>>
    const modulesDict: map<string, seq<Module>>
    const priority: seq<string>
    const queueLimit: int
    const launcherType: string
    const skipLastUpdate: bool
    const maxAgeDays: int

    /** Both project dictionaries end up with the same keys: each gains an
        empty list for every project only the other one names. */
    constructor (processDict: map<string, seq<Processor>>, modulesDict: map<string, seq<Module>>,
                 priority: seq<string>, queueLimit: int, maxAgeSetting: int, launcherType: string,
                 skipFlag: Option<string>)
      ensures this.processDict.Keys == this.modulesDict.Keys == processDict.Keys + modulesDict.Keys
      ensures forall p :: p in processDict ==> this.processDict[p] == processDict[p]
      ensures forall p :: p in modulesDict ==> this.modulesDict[p] == modulesDict[p]
      ensures forall p :: p in modulesDict && p !in processDict ==> this.processDict[p] == []
      ensures forall p :: p in processDict && p !in modulesDict ==> this.modulesDict[p] == []
      ensures this.priority == priority && this.queueLimit == queueLimit
      ensures this.launcherType == launcherType && this.maxAgeDays == maxAgeSetting
      ensures this.skipLastUpdate == ParseSkipFlag(skipFlag)
    {
      this.priority := priority;
      this.queueLimit := queueLimit;
      this.maxAgeDays := maxAgeSetting;
      this.launcherType := launcherType;
      this.skipLastUpdate := ParseSkipFlag(skipFlag);
      var modules := AddMissingKeys(modulesDict, processDict.Keys);
      var procs := AddMissingKeys(processDict, modules.Keys);
      this.modulesDict := modules;
      this.processDict := procs;
    }

    // -------------------------------------------------------------------
    // init_script and finish_script

    /** The project list of a run on one local project. */
    function LocalProject(project: string): (r: Result<seq<string>, Fault>)
      ensures r.Success? <==> ',' !in project && project in processDict
      ensures r.Success? ==> r.value == [project]
      ensures ',' in project ==> r == Failure(SeveralLocalProjects)
      ensures ',' !in project && project !in processDict ==> r == Failure(ProjectNotInSettings)
    {
      if ',' in project then Failure(SeveralLocalProjects)
      else if project in processDict then Success([project])
      else Failure(ProjectNotInSettings)
    }

    /** `init_script`: a local project bypasses the lock; otherwise the lock
        is taken (a held lock ends the run) and every configured project is
        returned, sorted. */
    method InitScript(flags: FlagFiles.FlagDir, flagPath: string, projectLocal: Option<string>)
      returns (r: Result<seq<string>, Fault>)
      modifies flags
      ensures Given(projectLocal) ==> r == LocalProject(projectLocal.value) && flags.markers == old(flags.markers)
      ensures !Given(projectLocal) ==> flags.markers == old(flags.markers) + {flagPath}
      ensures !Given(projectLocal) ==> (r.Failure? <==> flagPath in old(flags.markers))
      ensures !Given(projectLocal) && r.Failure? ==> r.error == LockHeld
      ensures !Given(projectLocal) && r.Success? ==>
        Text.StrictlySorted(r.value) && forall p :: p in r.value <==> p in processDict || p in modulesDict
    {
      if Given(projectLocal) {
        return LocalProject(projectLocal.value);
      }
      var acquired := flags.Lock(flagPath);
      if !acquired {
        return Failure(LockHeld);
      }
      var sorted := Ordering.SortedKeys(processDict.Keys + modulesDict.Keys);
      return Success(sorted);
    }

    /** A project list `init_script` returns: the local project when one is
        given, otherwise, when the flag file was absent, the sorted union of
        the settings keys. */
    ghost predicate InitYields(projectLocal: Option<string>, flagPath: string, markers: set<string>,
                               projects: seq<string>)
    {
      if Given(projectLocal) then LocalProject(projectLocal.value) == Success(projects)
      else
        && flagPath !in markers
        && Text.StrictlySorted(projects)
        && forall p :: p in projects <==> p in processDict || p in modulesDict
    }

    /** `finish_script`: release the lock unless the run was on a local project. */
    method FinishScript(flags: FlagFiles.FlagDir, flagPath: string, projectLocal: Option<string>)
      modifies flags
      ensures flags.markers == if Given(projectLocal) then old(flags.markers) else old(flags.markers) - {flagPath}
    {
      if !Given(projectLocal) {
        flags.Unlock(flagPath);
      }
    }

    // -------------------------------------------------------------------
    // get_tasks

    /** The projects `get_tasks` walks: the given list, or when it is empty
        the priority list followed by the other projects, or all projects. */
    function DefaultProjects(projectList: seq<string>, keyOrder: seq<string>): seq<string> {
      if projectList != [] then projectList
      else if priority != [] then Ordering.GetProjectList(priority, keyOrder)
      else keyOrder
    }

    /** The tasks of the projects in order; the first project missing from
        the settings or without a matching assessor ends the walk. */
    function CollectTasks(projects: seq<string>, sessionsLocal: Option<string>, filter: TaskFilter,
                          store: Store): (r: Result<seq<Task>, Fault>)
      ensures r.Failure? ==> r.error.UnknownProject? || r.error == NoMatchingAssessors
      decreases |projects|
    {
      if projects == [] then Success([])
      else
        var p := projects[0];
        if p !in processDict then Failure(UnknownProject(p))
        else match Matching.ProjectTasks(processDict[p], store.assessors(p), sessionsLocal, filter)
          case Failure(e) => Failure(e)
          case Success(tasks) => Prepend(tasks, CollectTasks(projects[1..], sessionsLocal, filter, store))
    }

    /** `get_tasks`. `keyOrder` is the order the processor dictionary yields its keys in. */
    method GetTasks(filter: TaskFilter, projectList: seq<string>, sessionsLocal: Option<string>,
                    store: Store, keyOrder: seq<string>)
      returns (r: Result<seq<Task>, Fault>)
      requires EnumeratesKeys(keyOrder, processDict.Keys)
      ensures r == CollectTasks(DefaultProjects(projectList, keyOrder), sessionsLocal, filter, store)
    {
      var projects := DefaultProjects(projectList, keyOrder);
      var tasks: seq<Task> := [];
      var i := 0;
      PrependNothing(CollectTasks(projects, sessionsLocal, filter, store));
      while i < |projects|
        invariant i <= |projects|
        invariant CollectTasks(projects, sessionsLocal, filter, store)
               == Prepend(tasks, CollectTasks(projects[i..], sessionsLocal, filter, store))
      {
        var p := projects[i];
        assert projects[i..][0] == p && projects[i..][1..] == projects[i + 1..];
        if p !in processDict {
          return Failure(UnknownProject(p));
        }
        var found := Matching.GetProjectTasks(processDict[p], store.assessors(p), sessionsLocal, filter);
        if found.Failure? {
          return Failure(found.error);
        }
        PrependTwice(tasks, found.value, CollectTasks(projects[i + 1..], sessionsLocal, filter, store));
        tasks := tasks + found.value;
        i := i + 1;
      }
      assert projects[i..] == [];
      assert tasks + [] == tasks;
      return Success(tasks);
    }

    lemma PrependNothing(r: Result<seq<Task>, Fault>)
      ensures Prepend([], r) == r
    {
      if r.Success? {
        assert [] + r.value == r.value;
      }
    }

    lemma PrependTwice(tasks: seq<Task>, more: seq<Task>, r: Result<seq<Task>, Fault>)
      ensures Prepend(tasks, Prepend(more, r)) == Prepend(tasks + more, r)
    {
      if r.Success? {
        assert tasks + (more + r.value) == tasks + more + r.value;
      }
    }

    /** A successful walk keeps every project's tasks and nothing else: each
        project is configured and its own task list succeeded, and a task is
        collected exactly when some project's list holds it. */
    lemma {:induction false} CollectTasksMembers(projects: seq<string>, sessionsLocal: Option<string>,
                                                 filter: TaskFilter, store: Store)
      requires CollectTasks(projects, sessionsLocal, filter, store).Success?
      ensures forall i :: 0 <= i < |projects| ==>
        && projects[i] in processDict
        && Matching.ProjectTasks(processDict[projects[i]], store.assessors(projects[i]), sessionsLocal, filter).Success?
      ensures forall t :: t in CollectTasks(projects, sessionsLocal, filter, store).value <==>
        exists i :: 0 <= i < |projects| && projects[i] in processDict &&
          var own := Matching.ProjectTasks(processDict[projects[i]], store.assessors(projects[i]), sessionsLocal, filter);
          own.Success? && t in own.value
      decreases |projects|
    {
      if projects != [] {
        var rest := projects[1..];
        CollectTasksMembers(rest, sessionsLocal, filter, store);
        forall i | 1 <= i < |projects| ensures projects[i] == rest[i - 1] { }
      }
    }

    /** A project missing from the settings anywhere in the list ends the walk with an error. */
    lemma {:induction false} UnknownProjectAborts(projects: seq<string>, sessionsLocal: Option<string>,
                                                  filter: TaskFilter, store: Store, k: nat)
      requires k < |projects| && projects[k] !in processDict
      ensures CollectTasks(projects, sessionsLocal, filter, store).Failure?
      decreases k
    {
      if k > 0 && projects[0] in processDict {
        UnknownProjectAborts(projects[1..], sessionsLocal, filter, store, k - 1);
      }
    }

    /** A walk over configured projects only can fail only on a session
        filter that matches nothing. */
    lemma {:induction false} KnownProjectsNeverUnknown(projects: seq<string>, sessionsLocal: Option<string>,
                                                       filter: TaskFilter, store: Store)
      requires forall i :: 0 <= i < |projects| ==> projects[i] in processDict
      ensures CollectTasks(projects, sessionsLocal, filter, store).Failure? ==>
        CollectTasks(projects, sessionsLocal, filter, store).error == NoMatchingAssessors
      decreases |projects|
    {
      if projects != [] {
        KnownProjectsNeverUnknown(projects[1..], sessionsLocal, filter, store);
      }
    }

    /** The default walk visits only configured projects once every priority
        project is configured, so it never fails on an unknown project; with
        no projects configured and no priority list it finds no tasks. */
    lemma DefaultWalkKnowsProjects(keyOrder: seq<string>, sessionsLocal: Option<string>,
                                   filter: TaskFilter, store: Store)
      requires EnumeratesKeys(keyOrder, processDict.Keys)
      requires forall p :: p in priority ==> p in processDict
      ensures var r := CollectTasks(DefaultProjects([], keyOrder), sessionsLocal, filter, store);
        && (r.Failure? ==> r.error == NoMatchingAssessors)
        && (processDict == map[] && priority == [] ==> r == Success([]))
    {
      var projects := DefaultProjects([], keyOrder);
      assert forall i :: 0 <= i < |projects| ==> projects[i] in processDict by {
        forall i | 0 <= i < |projects| ensures projects[i] in processDict {
          assert projects[i] in projects;
        }
      }
      KnownProjectsNeverUnknown(projects, sessionsLocal, filter, store);
    }

    /** With no project configured and a priority list, the default walk
        starts with a priority project the settings do not know, so it fails. */
    lemma PriorityWithoutSettingsFails(sessionsLocal: Option<string>, filter: TaskFilter, store: Store)
      requires processDict == map[] && priority != []
      ensures CollectTasks(DefaultProjects([], []), sessionsLocal, filter, store) == Failure(UnknownProject(priority[0]))
    {
      assert DefaultProjects([], []) == priority;
    }

    // -------------------------------------------------------------------
    // Launch

    /** `launch_jobs`, with the admission loop that feeds each re-read count
        back into its test. */
    method LaunchJobs(flags: FlagFiles.FlagDir, resultsDir: string, lockPrefix: string,
                      projectLocal: Option<string>, sessionsLocal: Option<string>,
                      writeOnly: bool, forceNoQsub: bool,
                      store: Store, queue: QueueDir, cluster: Cluster, keyOrder: seq<string>)
      returns (r: Result<LaunchReport, Fault>)
      requires EnumeratesKeys(keyOrder, processDict.Keys)
      modifies flags
      ensures launcherType == DISKQ_XNAT ==> r == Failure(ForbiddenForLauncherType) && flags.markers == old(flags.markers)
      ensures Given(projectLocal) ==> flags.markers == old(flags.markers)
      ensures var path := FlagFiles.FlagPath(resultsDir, lockPrefix, FlagFiles.LAUNCH_SUFFIX);
        && (r.Success? && !Given(projectLocal) ==> flags.markers == old(flags.markers) - {path})
        && (r.Failure? && !Given(projectLocal) && launcherType != DISKQ_XNAT ==> path in flags.markers)
      // A lock left by another run ends the phase before anything is done;
      // a run on one local project reports why its project was refused.
      ensures launcherType != DISKQ_XNAT && !Given(projectLocal) &&
              FlagFiles.FlagPath(resultsDir, lockPrefix, FlagFiles.LAUNCH_SUFFIX) in old(flags.markers) ==>
        r == Failure(LockHeld) && flags.markers == old(flags.markers)
      ensures launcherType != DISKQ_XNAT && Given(projectLocal) && LocalProject(projectLocal.value).Failure? ==>
        r == Failure(LocalProject(projectLocal.value).error)
      ensures r.Success? && ReadsDiskQueue(launcherType) ==>
        r.value.FromQueue? && !forceNoQsub && !Admission.Raised(r.value.queued.outcome) &&
        r.value.queued == Admission.Corrected(DiskQueue.Load(queue.listing, queue.statusOf, Some(NEED_TO_RUN)),
                                              false, queueLimit, cluster.initialCount, cluster.launchOk, cluster.jobCount)
      ensures r.Success? && !ReadsDiskQueue(launcherType) ==>
        && r.value.FromStore? && !forceNoQsub && store.hasDaxDatatypes && !Admission.Raised(r.value.tasks.outcome)
        && var tasks := CollectTasks(DefaultProjects(r.value.projects, keyOrder), sessionsLocal, Launchable, store);
           tasks.Success? &&
           r.value.tasks == Admission.Corrected(tasks.value, writeOnly, queueLimit,
                                                cluster.initialCount, cluster.launchOk, cluster.jobCount)
      // Once the lock is taken, the outcome is decided by the admission run:
      // a raised run fails the phase with the matching error.
      ensures launcherType != DISKQ_XNAT && ReadsDiskQueue(launcherType) && !forceNoQsub ==>
        var path := FlagFiles.FlagPath(resultsDir, lockPrefix, FlagFiles.LAUNCH_SUFFIX);
        forall projects :: InitYields(projectLocal, path, old(flags.markers), projects) ==>
          var run := Admission.Corrected(DiskQueue.Load(queue.listing, queue.statusOf, Some(NEED_TO_RUN)), false,
                                         queueLimit, cluster.initialCount, cluster.launchOk, cluster.jobCount);
          r == Settle(run.outcome, FromQueue(projects, run))
      ensures launcherType != DISKQ_XNAT && !ReadsDiskQueue(launcherType) && store.hasDaxDatatypes && !forceNoQsub ==>
        var path := FlagFiles.FlagPath(resultsDir, lockPrefix, FlagFiles.LAUNCH_SUFFIX);
        forall projects :: InitYields(projectLocal, path, old(flags.markers), projects) ==>
          var tasks := CollectTasks(DefaultProjects(projects, keyOrder), sessionsLocal, Launchable, store);
          && (tasks.Failure? ==> r == Failure(tasks.error))
          && (tasks.Success? ==>
                var run := Admission.Corrected(tasks.value, writeOnly, queueLimit,
                                               cluster.initialCount, cluster.launchOk, cluster.jobCount);
                r == Settle(run.outcome, FromStore(projects, run)))
      ensures r.Success? && Given(projectLocal) ==> r.value.projects == [projectLocal.value]
      ensures r.Success? && !Given(projectLocal) ==>
        Text.StrictlySorted(r.value.projects) && forall p :: p in r.value.projects <==> p in processDict || p in modulesDict
    {
      if launcherType == DISKQ_XNAT {
        return Failure(ForbiddenForLauncherType);
      }
      var path := FlagFiles.FlagPath(resultsDir, lockPrefix, FlagFiles.LAUNCH_SUFFIX);
      var projects := InitScript(flags, path, projectLocal);
      if projects.Failure? {
        return Failure(projects.error);
      }
      forall other | InitYields(projectLocal, path, old(flags.markers), other)
        ensures other == projects.value
      {
        if !Given(projectLocal) {
          Text.StrictlySortedUnique(other, projects.value);
        }
      }
      var report: LaunchReport;
      if ReadsDiskQueue(launcherType) {
        var loaded := DiskQueue.LoadTaskQueue(queue.listing, queue.statusOf, Some(NEED_TO_RUN));
        if forceNoQsub {
          return Failure(UnboundJobCount);
        }
        var list := new Admission.TaskList(loaded);
        var run := Admission.LaunchTasksCorrected(list, false, queueLimit,
                                                  cluster.initialCount, cluster.launchOk, cluster.jobCount);
        if run.outcome == Admission.LaunchFailed {
          return Failure(LaunchFailure);
        } else if run.outcome == Admission.CountFailed {
          return Failure(CountFailure);
        }
        report := FromQueue(projects.value, run);
      } else {
        if !store.hasDaxDatatypes {
          return Failure(MissingDaxDatatypes);
        }
        var tasks := GetTasks(Launchable, projects.value, sessionsLocal, store, keyOrder);
        if tasks.Failure? {
          return Failure(tasks.error);
        }
        if forceNoQsub {
          return Failure(UnboundJobCount);
        }
        var list := new Admission.TaskList(tasks.value);
        var run := Admission.LaunchTasksCorrected(list, writeOnly, queueLimit,
                                                  cluster.initialCount, cluster.launchOk, cluster.jobCount);
        if run.outcome == Admission.LaunchFailed {
          return Failure(LaunchFailure);
        } else if run.outcome == Admission.CountFailed {
          return Failure(CountFailure);
        }
        report := FromStore(projects.value, run);
      }
      FinishScript(flags, path, projectLocal);
      return Success(report);
    }

    // -------------------------------------------------------------------
    // Update

    /** The number of tasks the update phase walks: every task in the disk
        queue, or the open tasks of the projects in the store. */
    function OpenTasks(projects: seq<string>, sessionsLocal: Option<string>, openProc: set<ProcStatus>,
                       openQa: set<QcStatus>, store: Store, queue: QueueDir, keyOrder: seq<string>): Result<nat, Fault>
    {
      if ReadsDiskQueue(launcherType) then Success(|DiskQueue.Load(queue.listing, queue.statusOf, None)|)
      else if !store.hasDaxDatatypes then Failure(MissingDaxDatatypes)
      else
        var tasks := CollectTasks(DefaultProjects(projects, keyOrder), sessionsLocal, Updatable(openProc, openQa), store);
        if tasks.Failure? then Failure(tasks.error) else Success(|tasks.value|)
    }

    method OpenTaskCount(projects: seq<string>, sessionsLocal: Option<string>, openProc: set<ProcStatus>,
                         openQa: set<QcStatus>, store: Store, queue: QueueDir, keyOrder: seq<string>)
      returns (r: Result<nat, Fault>)
      requires EnumeratesKeys(keyOrder, processDict.Keys)
      ensures r == OpenTasks(projects, sessionsLocal, openProc, openQa, store, queue, keyOrder)
    {
      if ReadsDiskQueue(launcherType) {
        var loaded := DiskQueue.LoadTaskQueue(queue.listing, queue.statusOf, None);
        return Success(|loaded|);
      }
      if !store.hasDaxDatatypes {
        return Failure(MissingDaxDatatypes);
      }
      var tasks := GetTasks(Updatable(openProc, openQa), projects, sessionsLocal, store, keyOrder);
      if tasks.Failure? {
        return Failure(tasks.error);
      }
      return Success(|tasks.value|);
    }

    /** The walk over open tasks in `update_tasks`: gather the tasks, then update them in
        order until one raises. The result is how many were updated. */
    method UpdateProjects(projects: seq<string>, sessionsLocal: Option<string>, openProc: set<ProcStatus>,
                          openQa: set<QcStatus>, store: Store, queue: QueueDir, updateOk: nat -> bool,
                          keyOrder: seq<string>)
      returns (r: Result<nat, Fault>)
      requires EnumeratesKeys(keyOrder, processDict.Keys)
      ensures r.Success? ==> OpenTasks(projects, sessionsLocal, openProc, openQa, store, queue, keyOrder) == Success(r.value)
      ensures r.Success? ==> forall i :: 0 <= i < r.value ==> updateOk(i)
      ensures r.Failure? ==>
        || OpenTasks(projects, sessionsLocal, openProc, openQa, store, queue, keyOrder) == Failure(r.error)
        || (r.error == UpdateFailure && FirstFailedUpdate(OpenTasks(projects, sessionsLocal, openProc, openQa, store, queue, keyOrder), updateOk))
      ensures var count := OpenTasks(projects, sessionsLocal, openProc, openQa, store, queue, keyOrder);
        && (count.Failure? ==> r == Failure(count.error))
        && (count.Success? && (forall i :: 0 <= i < count.value ==> updateOk(i)) ==> r == Success(count.value))
        && (FirstFailedUpdate(count, updateOk) ==> r == Failure(UpdateFailure))
    {
      var count := OpenTaskCount(projects, sessionsLocal, openProc, openQa, store, queue, keyOrder);
      if count.Failure? {
        return Failure(count.error);
      }
      var updated := UpdateStatuses(count.value, updateOk);
      if updated < count.value {
        assert !updateOk(updated) && forall j :: 0 <= j < updated ==> updateOk(j);
        return Failure(UpdateFailure);
      }
      return Success(updated);
    }

    /** `update_tasks`: every open task's status is updated in order; a
        task whose update raises ends the phase with the lock still held.
        `updateOk(i)` is whether the i-th update returns normally. */
    method UpdateTasks(flags: FlagFiles.FlagDir, resultsDir: string, lockPrefix: string,
                       projectLocal: Option<string>, sessionsLocal: Option<string>,
                       openProc: set<ProcStatus>, openQa: set<QcStatus>,
                       store: Store, queue: QueueDir, updateOk: nat -> bool, keyOrder: seq<string>)
      returns (r: Result<UpdateReport, Fault>)
      requires EnumeratesKeys(keyOrder, processDict.Keys)
      modifies flags
      ensures launcherType == DISKQ_XNAT ==> r == Failure(ForbiddenForLauncherType) && flags.markers == old(flags.markers)
      ensures Given(projectLocal) ==> flags.markers == old(flags.markers)
      ensures var path := FlagFiles.FlagPath(resultsDir, lockPrefix, FlagFiles.UPDATE_SUFFIX);
        && (r.Success? && !Given(projectLocal) ==> flags.markers == old(flags.markers) - {path})
        && (r.Failure? && !Given(projectLocal) && launcherType != DISKQ_XNAT ==> path in flags.markers)
      // A lock left by another run ends the phase before anything is done;
      // a run on one local project reports why its project was refused.
      ensures launcherType != DISKQ_XNAT && !Given(projectLocal) &&
              FlagFiles.FlagPath(resultsDir, lockPrefix, FlagFiles.UPDATE_SUFFIX) in old(flags.markers) ==>
        r == Failure(LockHeld) && flags.markers == old(flags.markers)
      ensures launcherType != DISKQ_XNAT && Given(projectLocal) && LocalProject(projectLocal.value).Failure? ==>
        r == Failure(LocalProject(projectLocal.value).error)
      ensures r.Success? ==>
        OpenTasks(r.value.projects, sessionsLocal, openProc, openQa, store, queue, keyOrder) == Success(r.value.updated)
      ensures r.Success? ==> forall i :: 0 <= i < r.value.updated ==> updateOk(i)
      // Once the lock is taken, the outcome is decided by the walk and the updates.
      ensures launcherType != DISKQ_XNAT ==>
        var path := FlagFiles.FlagPath(resultsDir, lockPrefix, FlagFiles.UPDATE_SUFFIX);
        forall projects :: InitYields(projectLocal, path, old(flags.markers), projects) ==>
          var count := OpenTasks(projects, sessionsLocal, openProc, openQa, store, queue, keyOrder);
          && (count.Failure? ==> r == Failure(count.error))
          && (count.Success? && (forall i :: 0 <= i < count.value ==> updateOk(i)) ==>
                r == Success(UpdateReport(projects, count.value)))
          && (FirstFailedUpdate(count, updateOk) ==> r == Failure(UpdateFailure))
      ensures r.Success? && Given(projectLocal) ==> r.value.projects == [projectLocal.value]
      ensures r.Success? && !Given(projectLocal) ==>
        Text.StrictlySorted(r.value.projects) && forall p :: p in r.value.projects <==> p in processDict || p in modulesDict
    {
      if launcherType == DISKQ_XNAT {
        return Failure(ForbiddenForLauncherType);
      }
      var path := FlagFiles.FlagPath(resultsDir, lockPrefix, FlagFiles.UPDATE_SUFFIX);
      var projects := InitScript(flags, path, projectLocal);
      if projects.Failure? {
        return Failure(projects.error);
      }
      forall other | InitYields(projectLocal, path, old(flags.markers), other)
        ensures other == projects.value
      {
        if !Given(projectLocal) {
          Text.StrictlySortedUnique(other, projects.value);
        }
      }
      var updated := UpdateProjects(projects.value, sessionsLocal, openProc, openQa, store, queue, updateOk, keyOrder);
      if updated.Failure? {
        return Failure(updated.error);
      }
      FinishScript(flags, path, projectLocal);
      return Success(UpdateReport(projects.value, updated.value));
    }

    // -------------------------------------------------------------------
    // Build

    /** What happens to one session of a build: skipped by the skip rule, or
        built and then, when tracking is on, given a marker by the commit
        rule. A failure of the build itself does not change the commit; a
        marker write the store refuses leaves the session without one. */
    function SessionStep(hasNew: bool, sessionsLocal: Option<string>, delta: Option<int>,
                         s: SessionInfo, clock: SessionClock, parseStamp: string -> int): (step: SessionBuild)
      ensures step.sessionLabel == s.sessionLabel
      ensures step.SessionBuilt? && step.marker.Some? ==>
        !skipLastUpdate && !BuildRules.SessionModifiedSince(clock.lastModifiedAtCommit, clock.buildStart) &&
        clock.markerWriteOk && step.marker.value == clock.commitNow + BuildRules.MARKER_LEAD
      ensures step.SessionBuilt? && !skipLastUpdate && clock.markerWriteOk
        && !BuildRules.SessionModifiedSince(clock.lastModifiedAtCommit, clock.buildStart)
        ==> step.marker.Some?
      ensures step.SessionBuilt? && skipLastUpdate ==> step.marker.None?
      ensures step.SessionSkipped? <==>
        BuildRules.SkipSession(!skipLastUpdate, hasNew, sessionsLocal, delta, maxAgeDays,
                               s.lastModified, MarkerTime(s.lastUpdated, parseStamp), clock.now)
    {
      var lastUpdated := MarkerTime(s.lastUpdated, parseStamp);
      if BuildRules.SkipSession(!skipLastUpdate, hasNew, sessionsLocal, delta, maxAgeDays,
                                s.lastModified, lastUpdated, clock.now)
      then SessionSkipped(s.sessionLabel)
      else SessionBuilt(s.sessionLabel,
        if skipLastUpdate then None
        else BuildRules.CommitLastUpdated(clock.lastModifiedAtCommit, clock.buildStart, clock.commitNow,
                                          clock.markerWriteOk))
    }

    /** What `build_project` does with one project. */
    function ProjectBuildResult(project: string, lockPrefix: string, sessionsLocal: Option<string>,
                                modDelta: Option<string>, store: Store, clock: nat -> SessionClock,
                                parseStamp: string -> int): Result<ProjectBuild, Fault>
    {
      if project !in modulesDict || project !in processDict then Failure(UnknownProject(project))
      else
        var delta := DeltaOf(modDelta);
        if delta.Failure? then Failure(delta.error)
        else
          var hasNew := HasNewFor(processDict[project], store.assessors(project));
          var sorted := Ordering.SessionOrder(Ordering.FilterSessions(store.sessions(project), sessionsLocal));
          Success(ProjectBuild(
            BuildRules.PrerunSettingsName(sessionsLocal, lockPrefix),
            SessionSteps(hasNew, sessionsLocal, delta.value, sorted, clock, parseStamp),
            BuildRules.RunsAfterrun(sessionsLocal)))
    }

    /** Whether some processor of the project has no assessor yet. */
    function HasNewFor(procs: seq<Processor>, assessors: seq<AssessorInfo>): bool {
      BuildRules.HasNewProcessors(ProcNames(SessionProcessors(procs) + ScanProcessors(procs)), ProcTypes(assessors))
    }

    /** The sessions of a project, each decided by `SessionStep` in turn. */
    function SessionSteps(hasNew: bool, sessionsLocal: Option<string>, delta: Option<int>,
                          sorted: seq<SessionInfo>, clock: nat -> SessionClock,
                          parseStamp: string -> int): (steps: seq<SessionBuild>)
      ensures |steps| == |sorted|
      ensures forall j :: 0 <= j < |sorted| ==>
        steps[j] == SessionStep(hasNew, sessionsLocal, delta, sorted[j], clock(j), parseStamp)
    {
      seq(|sorted|, j requires 0 <= j < |sorted| =>
        SessionStep(hasNew, sessionsLocal, delta, sorted[j], clock(j), parseStamp))
    }

    /** `build_project`: settings lookups, the modification delta, the new
        processor test, then every listed session in order. */
    method BuildProject(project: string, lockPrefix: string, sessionsLocal: Option<string>,
                        modDelta: Option<string>, store: Store, clock: nat -> SessionClock,
                        parseStamp: string -> int)
      returns (r: Result<ProjectBuild, Fault>)
      ensures r == ProjectBuildResult(project, lockPrefix, sessionsLocal, modDelta, store, clock, parseStamp)
    {
      if project !in modulesDict || project !in processDict {
        return Failure(UnknownProject(project));
      }
      var prerunName := BuildRules.PrerunSettingsName(sessionsLocal, lockPrefix);
      var procs := processDict[project];
      var delta := DeltaOf(modDelta);
      if delta.Failure? {
        return Failure(delta.error);
      }
      var hasNew := HasNewFor(procs, store.assessors(project));
      var sorted := Ordering.GetSessionsList(store.sessions(project), sessionsLocal);
      ghost var expected := SessionSteps(hasNew, sessionsLocal, delta.value, sorted, clock, parseStamp);
      var steps: seq<SessionBuild> := [];
      for j := 0 to |sorted|
        invariant steps == expected[..j]
      {
        Seqs.PrefixSnoc(expected, j);
        steps := steps + [SessionStep(hasNew, sessionsLocal, delta.value, sorted[j], clock(j), parseStamp)];
      }
      assert expected[..|sorted|] == expected;
      return Success(ProjectBuild(prerunName, steps, BuildRules.RunsAfterrun(sessionsLocal)));
    }

    /** The recorded results of building the projects in turn. */
    function ProjectResults(projects: seq<string>, lockPrefix: string, sessionsLocal: Option<string>,
                            modDelta: Option<string>, store: Store, clock: string -> nat -> SessionClock,
                            parseStamp: string -> int): (results: seq<Result<ProjectBuild, Fault>>)
      ensures |results| == |projects|
      ensures forall i :: 0 <= i < |projects| ==>
        results[i] == ProjectBuildResult(projects[i], lockPrefix, sessionsLocal, modDelta,
                                         store, clock(projects[i]), parseStamp)
    {
      seq(|projects|, k requires 0 <= k < |projects| =>
        ProjectBuildResult(projects[k], lockPrefix, sessionsLocal, modDelta, store, clock(projects[k]), parseStamp))
    }

    /** The project loop of `build`: a project's failure is caught and recorded. */
    method BuildProjects(projects: seq<string>, lockPrefix: string, sessionsLocal: Option<string>,
                         modDelta: Option<string>, store: Store, clock: string -> nat -> SessionClock,
                         parseStamp: string -> int)
      returns (results: seq<Result<ProjectBuild, Fault>>)
      ensures results == ProjectResults(projects, lockPrefix, sessionsLocal, modDelta, store, clock, parseStamp)
    {
      ghost var expected := ProjectResults(projects, lockPrefix, sessionsLocal, modDelta, store, clock, parseStamp);
      results := [];
      for i := 0 to |projects|
        invariant results == expected[..i]
      {
        var result := BuildProject(projects[i], lockPrefix, sessionsLocal, modDelta, store, clock(projects[i]), parseStamp);
        Seqs.PrefixSnoc(expected, i);
        results := results + [result];
      }
      assert expected[..|projects|] == expected;
    }

    /** `build`: every project is built in turn and a project's failure is
        recorded without ending the phase. With a priority list and no
        local project, the priority projects come first, then the others in
        `unionOrder`, the order the union of the settings keys is walked in. */
    method Build(flags: FlagFiles.FlagDir, resultsDir: string, lockPrefix: string,
                 projectLocal: Option<string>, sessionsLocal: Option<string>, modDelta: Option<string>,
                 store: Store, unionOrder: seq<string>, clock: string -> nat -> SessionClock,
                 parseStamp: string -> int)
      returns (r: Result<BuildReport, Fault>)
      requires EnumeratesKeys(unionOrder, processDict.Keys + modulesDict.Keys)
      modifies flags
      ensures launcherType == DISKQ_CLUSTER ==> r == Failure(ForbiddenForLauncherType) && flags.markers == old(flags.markers)
      ensures Given(projectLocal) ==> flags.markers == old(flags.markers)
      ensures var path := FlagFiles.FlagPath(resultsDir, lockPrefix, FlagFiles.BUILD_SUFFIX);
        && (r.Success? && !Given(projectLocal) ==> flags.markers == old(flags.markers) - {path})
        && (r.Failure? && !Given(projectLocal) && launcherType != DISKQ_CLUSTER ==> path in flags.markers)
      // A lock left by another run ends the phase before anything is done;
      // a run on one local project reports why its project was refused.
      ensures launcherType != DISKQ_CLUSTER && !Given(projectLocal) &&
              FlagFiles.FlagPath(resultsDir, lockPrefix, FlagFiles.BUILD_SUFFIX) in old(flags.markers) ==>
        r == Failure(LockHeld) && flags.markers == old(flags.markers)
      ensures launcherType != DISKQ_CLUSTER && Given(projectLocal) && LocalProject(projectLocal.value).Failure? ==>
        r == Failure(LocalProject(projectLocal.value).error)
      ensures r.Success? ==> store.hasDaxDatatypes
      ensures r.Success? && Given(projectLocal) ==> r.value.projects == [projectLocal.value]
      ensures r.Success? && priority != [] && !Given(projectLocal) ==>
        r.value.projects == Ordering.GetProjectList(priority, unionOrder)
      ensures r.Success? && priority == [] && !Given(projectLocal) ==>
        Text.StrictlySorted(r.value.projects) && forall p :: p in r.value.projects <==> p in processDict || p in modulesDict
      ensures r.Success? ==>
        r.value.results == ProjectResults(r.value.projects, lockPrefix, sessionsLocal, modDelta, store, clock, parseStamp)
      // Once the lock is taken, the phase ends normally exactly when the
      // store has the DAX datatypes.
      ensures launcherType != DISKQ_CLUSTER ==>
        var path := FlagFiles.FlagPath(resultsDir, lockPrefix, FlagFiles.BUILD_SUFFIX);
        forall projects :: InitYields(projectLocal, path, old(flags.markers), projects) ==>
          var order := if priority != [] && !Given(projectLocal) then Ordering.GetProjectList(priority, unionOrder)
                       else projects;
          && (store.hasDaxDatatypes ==>
                r == Success(BuildReport(order, ProjectResults(order, lockPrefix, sessionsLocal, modDelta, store,
                                                               clock, parseStamp))))
          && (!store.hasDaxDatatypes ==> r == Failure(MissingDaxDatatypes))
    {
      if launcherType == DISKQ_CLUSTER {
        return Failure(ForbiddenForLauncherType);
      }
      var path := FlagFiles.FlagPath(resultsDir, lockPrefix, FlagFiles.BUILD_SUFFIX);
      var init := InitScript(flags, path, projectLocal);
      if init.Failure? {
        return Failure(init.error);
      }
      forall other | InitYields(projectLocal, path, old(flags.markers), other)
        ensures other == init.value
      {
        if !Given(projectLocal) {
          Text.StrictlySortedUnique(other, init.value);
        }
      }
      if !store.hasDaxDatatypes {
        return Failure(MissingDaxDatatypes);
      }
      var report := BuildAll(init.value, projectLocal, lockPrefix, sessionsLocal, modDelta, store, unionOrder,
                             clock, parseStamp);
      FinishScript(flags, path, projectLocal);
      return Success(report);
    }

    /** The body of `build` once the lock is held: the priority projects
        first when a priority list is set and no local project is given,
        otherwise the list `init_script` returned; then every project. */
    method BuildAll(initProjects: seq<string>, projectLocal: Option<string>, lockPrefix: string,
                    sessionsLocal: Option<string>, modDelta: Option<string>, store: Store,
                    unionOrder: seq<string>, clock: string -> nat -> SessionClock, parseStamp: string -> int)
      returns (report: BuildReport)
      ensures priority != [] && !Given(projectLocal) ==> report.projects == Ordering.GetProjectList(priority, unionOrder)
      ensures priority == [] || Given(projectLocal) ==> report.projects == initProjects
      ensures report.results == ProjectResults(report.projects, lockPrefix, sessionsLocal, modDelta, store, clock, parseStamp)
    {
      var projects := initProjects;
      if priority != [] && !Given(projectLocal) {
        projects := Ordering.GetProjectList(priority, unionOrder);
      }
      var results := BuildProjects(projects, lockPrefix, sessionsLocal, modDelta, store, clock, parseStamp);
      return BuildReport(projects, results);
    }
  }
}
