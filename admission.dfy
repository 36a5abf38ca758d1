/** The launch admission loop (`launch_tasks`): pop tasks from the end of the
    list and submit them while the cluster count allows, stopping on the
    first failed submission or failed count. The cluster is an oracle: the
    count read before the loop, the success of the i-th submission and the
    count read after the i-th submission. */
module Admission {

  /** The list of ready tasks, which the loop pops in place. */
  class TaskList<T> {
    var items: seq<T>

    constructor (items: seq<T>)
      ensures this.items == items
    {
      this.items := items;
    }

    /** `list.pop()`: remove and return the last task. */
    method Pop() returns (last: T)
      requires items != []
      modifies this
      ensures last == old(items)[|old(items)| - 1]
      ensures items == old(items)[..|old(items)| - 1]
    {
      last := items[|items| - 1];
      items := items[..|items| - 1];
    }
  }

  /** How a launch run ended. `NoInitialCount` is a normal return: the
      initial count failed and nothing was tried. The two failures raise. */
  datatype Outcome = Finished | NoInitialCount | LaunchFailed | CountFailed

  /** The tasks popped, in pop order (a failed submission's task included), and how the run ended. */
  datatype Run<T> = Run(popped: seq<T>, outcome: Outcome)

  predicate Raised(o: Outcome) {
    o == LaunchFailed || o == CountFailed
  }

  /** The first `k` tasks popped from the end of `tasks`: last first. */
  function PopOrder<T>(tasks: seq<T>, k: nat): (r: seq<T>)
    requires k <= |tasks|
    ensures |r| == k
    ensures forall j :: 0 <= j < k ==> r[j] == tasks[|tasks| - 1 - j]
  {
    if k == 0 then [] else PopOrder(tasks, k - 1) + [tasks[|tasks| - k]]
  }

  /** The first submission, from `from` on and below `n`, that fails or whose
      following count read fails; `n` if there is none. */
  function FirstFault(launchOk: nat -> bool, jobCount: nat -> int, from: nat, n: nat): (k: nat)
    requires from <= n
    ensures from <= k <= n
    ensures forall i :: from <= i < k ==> launchOk(i) && jobCount(i) != -1
    ensures k < n ==> !launchOk(k) || jobCount(k) == -1
    decreases n - from
  {
    if from == n || !launchOk(from) || jobCount(from) == -1 then from
    else FirstFault(launchOk, jobCount, from + 1, n)
  }

  /** The loop as written: the test compares only the count read before the
      loop with the limit; every later count is read, checked for failure and
      dropped. So either no task is tried, or tasks are popped until the list
      is empty or a submission or count read fails. */
  function AsWritten<T>(tasks: seq<T>, writeOnly: bool, queueLimit: int, initialCount: int,
                        launchOk: nat -> bool, jobCount: nat -> int): Run<T>
  {
    if initialCount == -1 then Run([], NoInitialCount)
    else if !(initialCount < queueLimit || writeOnly) then Run([], Finished)
    else
      var k := FirstFault(launchOk, jobCount, 0, |tasks|);
      if k == |tasks| then Run(PopOrder(tasks, k), Finished)
      else Run(PopOrder(tasks, k + 1), if !launchOk(k) then LaunchFailed else CountFailed)
  }

  /** `launch_tasks` as written (the serial `force_no_qsub` mode left aside). */
  method LaunchTasks<T>(list: TaskList<T>, writeOnly: bool, queueLimit: int, initialCount: int,
                        launchOk: nat -> bool, jobCount: nat -> int)
    returns (run: Run<T>)
    modifies list
    ensures run == AsWritten(old(list.items), writeOnly, queueLimit, initialCount, launchOk, jobCount)
    ensures list.items == old(list.items)[..|old(list.items)| - |run.popped|]
  {
    ghost var tasks := list.items;
    if initialCount == -1 {
      return Run([], NoInitialCount);
    }
    var cjobs := initialCount;
    var popped: seq<T> := [];
    var i := 0;
    while (cjobs < queueLimit || writeOnly) && |list.items| > 0
      invariant i <= |tasks| && cjobs == initialCount
      invariant list.items == tasks[..|tasks| - i]
      invariant popped == PopOrder(tasks, i)
      invariant forall j :: 0 <= j < i ==> launchOk(j) && jobCount(j) != -1
      invariant i > 0 ==> initialCount < queueLimit || writeOnly
    {
      var current := list.Pop();
      assert current == tasks[|tasks| - (i + 1)];
      popped := popped + [current];
      if !launchOk(i) {
        assert FirstFault(launchOk, jobCount, 0, |tasks|) == i;
        return Run(popped, LaunchFailed);
      }
      var currentJobCount := jobCount(i);
      if currentJobCount == -1 {
        assert FirstFault(launchOk, jobCount, 0, |tasks|) == i;
        return Run(popped, CountFailed);
      }
      i := i + 1;
    }
    if cjobs < queueLimit || writeOnly {
      assert FirstFault(launchOk, jobCount, 0, |tasks|) == |tasks|;
    }
    return Run(popped, Finished);
  }

  /** The count the loop test sees before the i-th submission when the count
      read after each submission is kept. */
  function CountBefore(initialCount: int, jobCount: nat -> int, i: nat): int {
    if i == 0 then initialCount else jobCount(i - 1)
  }

  /** The loop with the count read after each submission fed back into the test. */
  function Corrected<T>(tasks: seq<T>, writeOnly: bool, queueLimit: int, initialCount: int,
                        launchOk: nat -> bool, jobCount: nat -> int): Run<T>
  {
    if initialCount == -1 then Run([], NoInitialCount)
    else CorrectedFrom(tasks, writeOnly, queueLimit, initialCount, launchOk, jobCount, 0)
  }

  function CorrectedFrom<T>(tasks: seq<T>, writeOnly: bool, queueLimit: int, initialCount: int,
                            launchOk: nat -> bool, jobCount: nat -> int, i: nat): (r: Run<T>)
    requires i <= |tasks|
    ensures i <= |r.popped| <= |tasks|
    decreases |tasks| - i
  {
    if !((CountBefore(initialCount, jobCount, i) < queueLimit || writeOnly) && i < |tasks|) then
      Run(PopOrder(tasks, i), Finished)
    else if !launchOk(i) then Run(PopOrder(tasks, i + 1), LaunchFailed)
    else if jobCount(i) == -1 then Run(PopOrder(tasks, i + 1), CountFailed)
    else CorrectedFrom(tasks, writeOnly, queueLimit, initialCount, launchOk, jobCount, i + 1)
  }

  /** The admission loop with the re-read count stored in `cjobs`. */
  method LaunchTasksCorrected<T>(list: TaskList<T>, writeOnly: bool, queueLimit: int, initialCount: int,
                                 launchOk: nat -> bool, jobCount: nat -> int)
    returns (run: Run<T>)
    modifies list
    ensures run == Corrected(old(list.items), writeOnly, queueLimit, initialCount, launchOk, jobCount)
    ensures list.items == old(list.items)[..|old(list.items)| - |run.popped|]
  {
    ghost var tasks := list.items;
    if initialCount == -1 {
      return Run([], NoInitialCount);
    }
    var cjobs := initialCount;
    var popped: seq<T> := [];
    var i := 0;
    while (cjobs < queueLimit || writeOnly) && |list.items| > 0
      invariant i <= |tasks| && cjobs == CountBefore(initialCount, jobCount, i)
      invariant list.items == tasks[..|tasks| - i]
      invariant popped == PopOrder(tasks, i)
      invariant CorrectedFrom(tasks, writeOnly, queueLimit, initialCount, launchOk, jobCount, i)
             == CorrectedFrom(tasks, writeOnly, queueLimit, initialCount, launchOk, jobCount, 0)
    {
      var current := list.Pop();
      assert current == tasks[|tasks| - (i + 1)];
      popped := popped + [current];
      if !launchOk(i) {
        return Run(popped, LaunchFailed);
      }
      cjobs := jobCount(i);
      if cjobs == -1 {
        return Run(popped, CountFailed);
      }
      i := i + 1;
    }
    return Run(popped, Finished);
  }

  /** The ceiling the corrected loop keeps: unless writing only, every task is
      submitted while the most recently read count is below the limit, and a
      run that stops with tasks left saw the limit reached. */
  lemma {:induction false} CorrectedKeepsCeiling<T>(tasks: seq<T>, writeOnly: bool, queueLimit: int,
                                                    initialCount: int, launchOk: nat -> bool,
                                                    jobCount: nat -> int, i: nat)
    requires i <= |tasks|
    requires forall j :: 0 <= j < i ==> writeOnly || CountBefore(initialCount, jobCount, j) < queueLimit
    ensures var run := CorrectedFrom(tasks, writeOnly, queueLimit, initialCount, launchOk, jobCount, i);
      && |run.popped| <= |tasks|
      && (forall j :: 0 <= j < |run.popped| ==> writeOnly || CountBefore(initialCount, jobCount, j) < queueLimit)
      && (run.outcome == Finished && |run.popped| < |tasks| ==>
            !writeOnly && CountBefore(initialCount, jobCount, |run.popped|) >= queueLimit)
    decreases |tasks| - i
  {
    if (CountBefore(initialCount, jobCount, i) < queueLimit || writeOnly) && i < |tasks|
       && launchOk(i) && jobCount(i) != -1 {
      CorrectedKeepsCeiling(tasks, writeOnly, queueLimit, initialCount, launchOk, jobCount, i + 1);
    }
  }

  /** The corrected loop stops no later than the loop as written: it pops a
      prefix of the tasks the program pops, and when it raises it raises the
      program's failure after popping the same tasks. */
  lemma CorrectedStopsNoLater<T>(tasks: seq<T>, writeOnly: bool, queueLimit: int, initialCount: int,
                                 launchOk: nat -> bool, jobCount: nat -> int)
    ensures var c := Corrected(tasks, writeOnly, queueLimit, initialCount, launchOk, jobCount);
            var w := AsWritten(tasks, writeOnly, queueLimit, initialCount, launchOk, jobCount);
            && |c.popped| <= |w.popped|
            && c.popped == w.popped[..|c.popped|]
            && (Raised(c.outcome) ==> c == w)
  {
    if initialCount != -1 && (initialCount < queueLimit || writeOnly) {
      var k := FirstFault(launchOk, jobCount, 0, |tasks|);
      CorrectedFromWithinFirstFault(tasks, writeOnly, queueLimit, initialCount, launchOk, jobCount, 0);
      var c := Corrected(tasks, writeOnly, queueLimit, initialCount, launchOk, jobCount);
      var w := AsWritten(tasks, writeOnly, queueLimit, initialCount, launchOk, jobCount);
      assert forall j :: 0 <= j < |c.popped| ==> c.popped[j] == w.popped[j];
    }
  }

  /** From a submission before the first fault, the corrected loop pops at
      most what the program pops, in pop order, and raises only at the first
      fault. */
  lemma {:induction false} CorrectedFromWithinFirstFault<T>(tasks: seq<T>, writeOnly: bool, queueLimit: int,
                                                            initialCount: int, launchOk: nat -> bool,
                                                            jobCount: nat -> int, i: nat)
    requires i <= FirstFault(launchOk, jobCount, 0, |tasks|)
    ensures var k := FirstFault(launchOk, jobCount, 0, |tasks|);
            var r := CorrectedFrom(tasks, writeOnly, queueLimit, initialCount, launchOk, jobCount, i);
            && r.popped == PopOrder(tasks, |r.popped|)
            && |r.popped| <= (if k == |tasks| then k else k + 1)
            && (Raised(r.outcome) ==>
                  k < |tasks| && |r.popped| == k + 1 &&
                  r.outcome == (if !launchOk(k) then LaunchFailed else CountFailed))
    decreases |tasks| - i
  {
    var k := FirstFault(launchOk, jobCount, 0, |tasks|);
    if (CountBefore(initialCount, jobCount, i) < queueLimit || writeOnly) && i < |tasks| {
      if launchOk(i) && jobCount(i) != -1 {
        assert i < k;
        CorrectedFromWithinFirstFault(tasks, writeOnly, queueLimit, initialCount, launchOk, jobCount, i + 1);
      } else {
        assert i == k;
      }
    }
  }

  /** A failed initial count: no task is tried and the call returns normally. */
  lemma InitialCountFailure<T>(tasks: seq<T>, writeOnly: bool, queueLimit: int,
                               launchOk: nat -> bool, jobCount: nat -> int)
    ensures AsWritten(tasks, writeOnly, queueLimit, -1, launchOk, jobCount) == Run([], NoInitialCount)
  {
  }

  /** A full queue and no write-only mode: nothing is submitted, normal return. */
  lemma FullQueueSubmitsNothing<T>(tasks: seq<T>, queueLimit: int, initialCount: int,
                                   launchOk: nat -> bool, jobCount: nat -> int)
    requires initialCount != -1 && initialCount >= queueLimit
    ensures AsWritten(tasks, false, queueLimit, initialCount, launchOk, jobCount) == Run([], Finished)
  {
  }

  /** The scenario of a limit of 5 with 5 jobs queued and two tasks ready:
      nothing is submitted and the call returns normally. */
  lemma FullQueueExample(t1: int, t2: int, launchOk: nat -> bool, jobCount: nat -> int)
    ensures AsWritten([t1, t2], false, 5, 5, launchOk, jobCount) == Run([], Finished)
  {
    FullQueueSubmitsNothing([t1, t2], 5, 5, launchOk, jobCount);
  }

  /** Two clusters that fail at the same reads yield the same run as written:
      the values of the counts read after submissions never matter. */
  lemma {:induction false} RereadCountIgnored<T>(tasks: seq<T>, writeOnly: bool, queueLimit: int,
                                                 initialCount: int, launchOk: nat -> bool,
                                                 jobCount1: nat -> int, jobCount2: nat -> int)
    requires forall i :: jobCount1(i) == -1 <==> jobCount2(i) == -1
    ensures AsWritten(tasks, writeOnly, queueLimit, initialCount, launchOk, jobCount1)
         == AsWritten(tasks, writeOnly, queueLimit, initialCount, launchOk, jobCount2)
  {
    FirstFaultSameFailures(launchOk, jobCount1, jobCount2, 0, |tasks|);
  }

  lemma {:induction false} FirstFaultSameFailures(launchOk: nat -> bool, jobCount1: nat -> int,
                                                  jobCount2: nat -> int, from: nat, n: nat)
    requires from <= n
    requires forall i :: jobCount1(i) == -1 <==> jobCount2(i) == -1
    ensures FirstFault(launchOk, jobCount1, from, n) == FirstFault(launchOk, jobCount2, from, n)
    decreases n - from
  {
    if from < n && launchOk(from) && jobCount1(from) != -1 {
      FirstFaultSameFailures(launchOk, jobCount1, jobCount2, from + 1, n);
    }
  }

  /** Write-only mode with every submission and count succeeding submits
      every task, last task first. */
  lemma WriteOnlySubmitsAll<T>(tasks: seq<T>, queueLimit: int, initialCount: int,
                               launchOk: nat -> bool, jobCount: nat -> int)
    requires initialCount != -1
    requires forall i :: 0 <= i < |tasks| ==> launchOk(i) && jobCount(i) != -1
    ensures var run := AsWritten(tasks, true, queueLimit, initialCount, launchOk, jobCount);
      run.outcome == Finished && |run.popped| == |tasks| &&
      forall j :: 0 <= j < |tasks| ==> run.popped[j] == tasks[|tasks| - 1 - j]
  {
    assert FirstFault(launchOk, jobCount, 0, |tasks|) == |tasks|;
  }

  /** A raised failure is the last thing the loop does: the failing task is
      the last one popped, and every task before it was submitted and followed
      by a good count. */
  lemma {:induction false} FailureStopsLoop<T>(tasks: seq<T>, writeOnly: bool, queueLimit: int,
                                               initialCount: int, launchOk: nat -> bool, jobCount: nat -> int)
    ensures var run := AsWritten(tasks, writeOnly, queueLimit, initialCount, launchOk, jobCount);
      && (forall j :: 0 <= j < |run.popped| - 1 ==> launchOk(j) && jobCount(j) != -1)
      && (Raised(run.outcome) ==>
            |run.popped| >= 1 &&
            (run.outcome == LaunchFailed ==> !launchOk(|run.popped| - 1)) &&
            (run.outcome == CountFailed ==> launchOk(|run.popped| - 1) && jobCount(|run.popped| - 1) == -1))
      && (run.outcome == Finished && run.popped != [] ==> |run.popped| == |tasks|)
  {
  }

  /** Limit 5, four jobs queued, three tasks, and every count read after a
      submission at or above the limit: as written, all three are submitted
      (the second and third while 5 and 6 jobs are queued); with the count fed
      back only the first is. */
  lemma AsWrittenOverfillsQueue()
    ensures var ok := (i: nat) => true;
            var counts := (i: nat) => 5 + i;
            var written := AsWritten([1, 2, 3], false, 5, 4, ok, counts);
            var corrected := Corrected([1, 2, 3], false, 5, 4, ok, counts);
            && written == Run([3, 2, 1], Finished)
            && CountBefore(4, counts, 1) == 5 && CountBefore(4, counts, 2) == 6
            && corrected == Run([3], Finished)
  {
    var ok := (i: nat) => true;
    var counts := (i: nat) => 5 + i;
    assert FirstFault(ok, counts, 0, 3) == 3;
    assert PopOrder([1, 2, 3], 3) == [3, 2, 1];
    assert PopOrder([1, 2, 3], 1) == [3];
  }
}
