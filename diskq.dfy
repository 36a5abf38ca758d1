/** Loading the disk queue (`load_task_queue`): every batch file in the queue
    names a task whose status is read from the queue, and the listing is
    kept in order, filtered by status when a filter is given. The directory
    listing is a parameter, and so is the status each task reads back. */
module DiskQueue {
  import opened Wrappers
  import Status
  import Seqs

  /** A task loaded from the queue: its id and the status it reports. */
  datatype QueuedTask = QueuedTask(id: string, status: string)

  /** The largest index below `n` holding a dot, or -1. */
  function LastDot(name: string, n: nat): (i: int)
    requires n <= |name|
    ensures -1 <= i < n
    ensures i >= 0 ==> name[i] == '.'
    ensures forall k :: i < k < n ==> name[k] != '.'
  {
    if n == 0 then -1 else if name[n - 1] == '.' then n - 1 else LastDot(name, n - 1)
  }

  predicate AllDots(s: string) {
    forall k :: 0 <= k < |s| ==> s[k] == '.'
  }

  /** The first half of POSIX `splitext` on a bare file name: the name cut
      before its last dot, unless only dots precede that dot (a hidden file
      such as ".pbs" has no extension). */
  function Root(name: string): (root: string)
    ensures root <= name
    ensures root != name <==>
      exists i :: 0 <= i < |name| && name[i] == '.' && !AllDots(name[..i]) &&
        forall k :: i < k < |name| ==> name[k] != '.'
    ensures root != name ==>
      name[|root|] == '.' && !AllDots(root) && forall k :: |root| < k < |name| ==> name[k] != '.'
  {
    var i := LastDot(name, |name|);
    if i >= 0 && !AllDots(name[..i]) then name[..i] else name
  }

  /** A batch file named after its task with a one-dot extension gives the
      task id back. */
  lemma RootOfBatchFile(id: string, ext: string)
    requires !AllDots(id)
    requires |ext| >= 1 && ext[0] == '.' && forall k :: 1 <= k < |ext| ==> ext[k] != '.'
    ensures Root(id + ext) == id
  {
    var name := id + ext;
    assert name[|id|] == '.';
    assert name[..|id|] == id;
  }

  /** `not status or task.get_status() == status`: a missing or empty filter keeps all. */
  function Keeps(filter: Option<string>): (keep: QueuedTask -> bool)
    ensures forall t :: keep(t) <==> !Status.Given(filter) || t.status == filter.value
  {
    (t: QueuedTask) => !Status.Given(filter) || t.status == filter.value
  }

  /** The queued task each batch file stands for, with the status it reads back. */
  function TaskOf(fileName: string, statusOf: string -> string): (t: QueuedTask)
    ensures t.id == Root(fileName) && t.status == statusOf(t.id)
  {
    QueuedTask(Root(fileName), statusOf(Root(fileName)))
  }

  function AllTasks(listing: seq<string>, statusOf: string -> string): (r: seq<QueuedTask>)
    ensures |r| == |listing|
    ensures forall j :: 0 <= j < |r| ==> r[j] == TaskOf(listing[j], statusOf)
  {
    if listing == [] then []
    else AllTasks(listing[..|listing| - 1], statusOf) + [TaskOf(listing[|listing| - 1], statusOf)]
  }

  /** What a load returns: the listed tasks the filter keeps, in listing order. */
  function Load(listing: seq<string>, statusOf: string -> string, filter: Option<string>): seq<QueuedTask>
  {
    Seqs.Filter(Keeps(filter), AllTasks(listing, statusOf))
  }

  /** `load_task_queue` over the queue's batch listing. */
  method LoadTaskQueue(listing: seq<string>, statusOf: string -> string, filter: Option<string>)
    returns (tasks: seq<QueuedTask>)
    ensures tasks == Load(listing, statusOf, filter)
  {
    tasks := [];
    var i := 0;
    while i < |listing|
      invariant i <= |listing|
      invariant tasks == Load(listing[..i], statusOf, filter)
    {
      var task := TaskOf(listing[i], statusOf);
      assert AllTasks(listing[..i + 1], statusOf) == AllTasks(listing[..i], statusOf) + [task] by {
        assert listing[..i + 1][..i] == listing[..i];
      }
      Seqs.FilterAppend(Keeps(filter), AllTasks(listing[..i], statusOf), [task]);
      if Keeps(filter)(task) {
        tasks := tasks + [task];
      }
      i := i + 1;
    }
    assert listing[..i] == listing;
  }

  /** A task whose status reads X comes back from a load filtered by X, and
      not from a load filtered by any other non-empty status. */
  lemma {:induction false} LoadRoundTrip(listing: seq<string>, statusOf: string -> string, j: nat, y: string)
    requires j < |listing| && y != ""
    ensures var t := TaskOf(listing[j], statusOf);
      && t in Load(listing, statusOf, Some(t.status))
      && (t in Load(listing, statusOf, Some(y)) <==> y == t.status)
  {
    var t := TaskOf(listing[j], statusOf);
    var all := AllTasks(listing, statusOf);
    assert all[j] == t;
    if t.status != "" {
      assert Keeps(Some(t.status))(t);
    }
  }

  /** Without a filter every listed task comes back, in listing order. */
  lemma {:induction false} LoadUnfilteredKeepsAll(listing: seq<string>, statusOf: string -> string)
    ensures Load(listing, statusOf, None) == AllTasks(listing, statusOf)
    ensures Load(listing, statusOf, Some("")) == AllTasks(listing, statusOf)
  {
    Seqs.FilterAll(Keeps(None), AllTasks(listing, statusOf));
    Seqs.FilterAll(Keeps(Some("")), AllTasks(listing, statusOf));
  }

  /** Every task a filtered load returns reports the filter's status. */
  lemma LoadOnlyMatching(listing: seq<string>, statusOf: string -> string, x: string)
    requires x != ""
    ensures forall t :: t in Load(listing, statusOf, Some(x)) ==> t.status == x
  {
  }
}
