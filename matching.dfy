/** Matching assessors to processors and assembling a project's task list
    (`match_proc`, `generate_task`, `get_assessors_list`, `get_project_tasks`). */
module Matching {
  import opened Wrappers
  import opened Status
  import Seqs

  /** A processor produces assessors of this type and name. */
  predicate Matches(p: Processor, a: AssessorInfo) {
    p.xsiType == a.xsiType && p.name == a.procType
  }

  /** `i` is the position of the first processor matching `a`. */
  predicate FirstMatchAt(procs: seq<Processor>, i: int, a: AssessorInfo) {
    0 <= i < |procs| && Matches(procs[i], a) &&
    forall k :: 0 <= k < i ==> !Matches(procs[k], a)
  }

  predicate AnyMatch(procs: seq<Processor>, a: AssessorInfo) {
    exists i :: 0 <= i < |procs| && Matches(procs[i], a)
  }

  /** The position of the first matching processor, if any. */
  function FirstMatch(procs: seq<Processor>, a: AssessorInfo): (r: Option<nat>)
    ensures r.Some? ==> FirstMatchAt(procs, r.value, a)
    ensures r.None? <==> !AnyMatch(procs, a)
    decreases |procs|
  {
    if procs == [] then None
    else if Matches(procs[0], a) then Some(0)
    else
      match FirstMatch(procs[1..], a)
      case None =>
        assert forall k :: 1 <= k < |procs| ==> procs[k] == procs[1..][k - 1];
        None
      case Some(i) =>
        assert forall k :: 1 <= k <= i ==> procs[k] == procs[1..][k - 1];
        Some(i + 1)
  }

  /** `match_proc`: the first session processor of the assessor's type and
      name, else the first such scan processor, else none. */
  function MatchProc(a: AssessorInfo, sessProcs: seq<Processor>, scanProcs: seq<Processor>)
    : (r: Option<Processor>)
    ensures r.Some? <==> AnyMatch(sessProcs, a) || AnyMatch(scanProcs, a)
    ensures AnyMatch(sessProcs, a) ==>
      exists i :: FirstMatchAt(sessProcs, i, a) && r == Some(sessProcs[i])
    ensures !AnyMatch(sessProcs, a) && AnyMatch(scanProcs, a) ==>
      exists j :: FirstMatchAt(scanProcs, j, a) && r == Some(scanProcs[j])
  {
    match FirstMatch(sessProcs, a)
    case Some(i) => Some(sessProcs[i])
    case None =>
      match FirstMatch(scanProcs, a)
      case Some(j) => Some(scanProcs[j])
      case None => None
  }

  /** A session processor wins over a scan processor and over a later
      session processor with the same type and name. */
  lemma MatchPrefersFirstSessionProcessor(a: AssessorInfo, p: Processor, q: Processor, s: Processor)
    requires Matches(p, a) && Matches(q, a) && Matches(s, a)
    ensures MatchProc(a, [p, q], [s]) == Some(p)
  {
    assert FirstMatchAt([p, q], 0, a);
  }

  /** What `generate_task` contributes for one listed assessor: none when the
      phase's predicate rejects it or no processor matches. */
  function TaskFor(a: AssessorInfo, filter: TaskFilter, sessProcs: seq<Processor>, scanProcs: seq<Processor>)
    : seq<Task>
  {
    if Accepts(filter, a) then
      match MatchProc(a, sessProcs, scanProcs)
      case None => []
      case Some(p) => [Task(p, a)]
    else []
  }

  /** The tasks of a list of assessors, in assessor order. */
  function SelectTasks(assessors: seq<AssessorInfo>, filter: TaskFilter,
                       sessProcs: seq<Processor>, scanProcs: seq<Processor>): seq<Task>
    decreases |assessors|
  {
    if assessors == [] then []
    else
      SelectTasks(assessors[..|assessors| - 1], filter, sessProcs, scanProcs)
        + TaskFor(assessors[|assessors| - 1], filter, sessProcs, scanProcs)
  }

  /** A task is selected exactly when its assessor is listed, passes the
      phase's predicate and matches its processor. */
  lemma {:induction false} SelectTasksMembers(assessors: seq<AssessorInfo>, filter: TaskFilter,
                                              sessProcs: seq<Processor>, scanProcs: seq<Processor>, t: Task)
    ensures t in SelectTasks(assessors, filter, sessProcs, scanProcs) <==>
      t.assessor in assessors && Accepts(filter, t.assessor) &&
      MatchProc(t.assessor, sessProcs, scanProcs) == Some(t.proc)
    decreases |assessors|
  {
    if assessors != [] {
      var n := |assessors| - 1;
      SelectTasksMembers(assessors[..n], filter, sessProcs, scanProcs, t);
      TaskForMembers(assessors[n], filter, sessProcs, scanProcs, t);
      assert assessors == assessors[..n] + [assessors[n]];
      assert t.assessor in assessors <==> t.assessor in assessors[..n] || t.assessor == assessors[n];
    }
  }

  /** The one assessor's contribution holds a task exactly when that task
      is for it, it is accepted and its processor is the matched one. */
  lemma TaskForMembers(a: AssessorInfo, filter: TaskFilter, sessProcs: seq<Processor>, scanProcs: seq<Processor>,
                       t: Task)
    ensures t in TaskFor(a, filter, sessProcs, scanProcs) <==>
      t.assessor == a && Accepts(filter, a) && MatchProc(a, sessProcs, scanProcs) == Some(t.proc)
  {
  }

  /** Task lists keep assessor order: the tasks of a concatenation are the
      tasks of the first part followed by those of the second. */
  lemma {:induction false} SelectTasksAppend(xs: seq<AssessorInfo>, ys: seq<AssessorInfo>, filter: TaskFilter,
                                             sessProcs: seq<Processor>, scanProcs: seq<Processor>)
    ensures SelectTasks(xs + ys, filter, sessProcs, scanProcs)
         == SelectTasks(xs, filter, sessProcs, scanProcs) + SelectTasks(ys, filter, sessProcs, scanProcs)
    decreases |ys|
  {
    if ys == [] {
      assert xs + ys == xs;
    } else {
      var n := |ys| - 1;
      assert (xs + ys)[..|xs + ys| - 1] == xs + ys[..n];
      assert (xs + ys)[|xs + ys| - 1] == ys[n];
      SelectTasksAppend(xs, ys[..n], filter, sessProcs, scanProcs);
    }
  }

  /** The session-label test of a session filter. */
  function InSessions(names: seq<string>): AssessorInfo -> bool {
    (a: AssessorInfo) => a.sessionLabel in names
  }

  /** `get_assessors_list`: the project's assessors, narrowed to the named
      sessions when a filter names some; narrowing to nothing exits. */
  function GetAssessorsList(assessors: seq<AssessorInfo>, sessionsLocal: Option<string>)
    : (r: Result<seq<AssessorInfo>, Fault>)
    ensures r.Failure? <==>
      NamesSessions(sessionsLocal) &&
      forall a :: a in assessors ==> a.sessionLabel !in NamedSessions(sessionsLocal)
    ensures r.Failure? ==> r.error == NoMatchingAssessors
    ensures r.Success? ==> forall a :: a in r.value <==>
      a in assessors && (NamesSessions(sessionsLocal) ==> a.sessionLabel in NamedSessions(sessionsLocal))
  {
    if NamesSessions(sessionsLocal) then
      var kept := Seqs.Filter(InSessions(NamedSessions(sessionsLocal)), assessors);
      if kept == [] then
        assert forall a :: a in assessors ==> a.sessionLabel !in NamedSessions(sessionsLocal) by {
          forall a | a in assessors ensures a.sessionLabel !in NamedSessions(sessionsLocal) {
            var i :| 0 <= i < |assessors| && assessors[i] == a;
          }
        }
        Failure(NoMatchingAssessors)
      else
        assert forall a :: a in kept ==> a in assessors && a.sessionLabel in NamedSessions(sessionsLocal) by {
          forall a | a in kept ensures a in assessors && a.sessionLabel in NamedSessions(sessionsLocal) {
            var i :| 0 <= i < |kept| && kept[i] == a;
          }
        }
        assert forall a :: a in assessors && a.sessionLabel in NamedSessions(sessionsLocal) ==> a in kept by {
          forall a | a in assessors && a.sessionLabel in NamedSessions(sessionsLocal) ensures a in kept {
            var i :| 0 <= i < |assessors| && assessors[i] == a;
          }
        }
        assert kept[0] in kept;
        Success(kept)
    else Success(assessors)
  }

  /** What `get_project_tasks` returns for one project. */
  function ProjectTasks(procs: seq<Processor>, assessors: seq<AssessorInfo>,
                        sessionsLocal: Option<string>, filter: TaskFilter): Result<seq<Task>, Fault>
  {
    match GetAssessorsList(assessors, sessionsLocal)
    case Failure(e) => Failure(e)
    case Success(listed) =>
      Success(SelectTasks(listed, filter, SessionProcessors(procs), ScanProcessors(procs)))
  }

  /** `get_project_tasks`: walks the listed assessors in order and appends the
      task of each one the phase selects and a processor matches. */
  method GetProjectTasks(procs: seq<Processor>, assessors: seq<AssessorInfo>,
                         sessionsLocal: Option<string>, filter: TaskFilter)
    returns (r: Result<seq<Task>, Fault>)
    ensures r == ProjectTasks(procs, assessors, sessionsLocal, filter)
  {
    var listed := GetAssessorsList(assessors, sessionsLocal);
    if listed.Failure? {
      return Failure(listed.error);
    }
    var list := listed.value;
    var sessProcs, scanProcs := SessionProcessors(procs), ScanProcessors(procs);
    var tasks: seq<Task> := [];
    var i := 0;
    while i < |list|
      invariant i <= |list|
      invariant tasks == SelectTasks(list[..i], filter, sessProcs, scanProcs)
    {
      var a := list[i];
      assert list[..i + 1][..i] == list[..i];
      if Accepts(filter, a) {
        var matched := MatchProc(a, sessProcs, scanProcs);
        if matched.Some? {
          tasks := tasks + [Task(matched.value, a)];
        }
      }
      i := i + 1;
    }
    assert list[..i] == list;
    return Success(tasks);
  }
}
