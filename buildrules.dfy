/** The decisions of the build phase: which sessions a sweep skips, when the
    last-updated marker is written, how many module rounds a session gets,
    and what happens to each processor's assessor. Times are whole seconds;
    the store, the clock and the processor plugins are parameters. */
module BuildRules {
  import opened Wrappers
  import opened Status
  import Text
  import Seqs

  /** The text in front of the time stamp of a last-updated marker. */
  const UPDATE_PREFIX := "updated--"

  /** The marker is moved one minute ahead of the time it is written. */
  const MARKER_LEAD := 60

  const SECONDS_PER_DAY := 86400

  // ---------------------------------------------------------------------
  // Last-updated marker

  /** `get_lastupdated`: the stamp after the prefix, or nothing when the
      field has nothing past the prefix's length. The prefix itself is not
      compared, only skipped. Turning the stamp into a time is not modelled. */
  function LastUpdatedStamp(field: string): (stamp: Option<string>)
    ensures stamp.None? <==> |field| <= |UPDATE_PREFIX|
    ensures stamp.Some? ==> stamp.value != "" && field == field[..|UPDATE_PREFIX|] + stamp.value
  {
    if |field| <= |UPDATE_PREFIX| then None else Some(field[|UPDATE_PREFIX|..])
  }

  /** A marker written by the launcher reads back as the stamp it was written with. */
  lemma MarkerRoundTrip(stamp: string)
    requires stamp != ""
    ensures LastUpdatedStamp(UPDATE_PREFIX + stamp) == Some(stamp)
  {
    assert (UPDATE_PREFIX + stamp)[|UPDATE_PREFIX|..] == stamp;
  }

  /** `sess_was_modified`: the store's last-modified time is after the given start. */
  predicate SessionModifiedSince(lastModified: int, start: int) {
    lastModified > start
  }

  /** `set_session_lastupdated`: when the session was not modified after the
      build started, the marker is set to one minute after now (the setting
      itself moves the store's last-modified time); otherwise nothing is
      written. A write that raises is caught and logged, and leaves the
      session without a new marker; `writeOk` is whether the store accepts
      the write. The result is the time the new marker carries. */
  function CommitLastUpdated(lastModified: int, buildStart: int, now: int, writeOk: bool): (marker: Option<int>)
    ensures marker.Some? <==> !SessionModifiedSince(lastModified, buildStart) && writeOk
    ensures marker.Some? ==> marker.value == now + MARKER_LEAD
  {
    if SessionModifiedSince(lastModified, buildStart) then None
    else if !writeOk then None
    else Some(now + MARKER_LEAD)
  }

  // ---------------------------------------------------------------------
  // Session skip rule

  /** The rule that looks at the last-updated marker applies only when
      tracking is on, every processor already has an assessor in the
      project, and no session filter was given (not even "all"). */
  predicate TrackingApplies(tracking: bool, hasNew: bool, sessionsLocal: Option<string>) {
    tracking && !hasNew && !Given(sessionsLocal)
  }

  /** A modification delta that counts: given and not zero (a zero
      `timedelta` is false in Python). */
  predicate DeltaGiven(delta: Option<int>) {
    delta.Some? && delta.value != 0
  }

  /** The per-session skip test of `build_project`. */
  predicate SkipSession(tracking: bool, hasNew: bool, sessionsLocal: Option<string>, delta: Option<int>,
                        maxAgeDays: int, lastModified: int, lastUpdated: Option<int>, now: int): (skip: bool)
    ensures skip && TrackingApplies(tracking, hasNew, sessionsLocal) ==>
      lastUpdated.Some? && lastModified < lastUpdated.value && now - lastModified < maxAgeDays * SECONDS_PER_DAY
    ensures skip && !TrackingApplies(tracking, hasNew, sessionsLocal) ==>
      DeltaGiven(delta) && now - lastModified > delta.value
  {
    if TrackingApplies(tracking, hasNew, sessionsLocal) then
      lastUpdated.Some? && lastModified < lastUpdated.value && now < lastModified + maxAgeDays * SECONDS_PER_DAY
    else
      DeltaGiven(delta) && now > lastModified + delta.value
  }

  /** A session modified at or after its marker, or never marked, is built. */
  lemma ModifiedSinceMarkerIsBuilt(hasNew: bool, sessionsLocal: Option<string>, delta: Option<int>,
                                   maxAgeDays: int, lastModified: int, lastUpdated: Option<int>, now: int)
    requires TrackingApplies(true, hasNew, sessionsLocal)
    requires lastUpdated.None? || lastModified >= lastUpdated.value
    ensures !SkipSession(true, hasNew, sessionsLocal, delta, maxAgeDays, lastModified, lastUpdated, now)
  {
  }

  /** A session last modified `maxAgeDays` days ago or earlier is built again. */
  lemma OldSessionIsRebuilt(hasNew: bool, sessionsLocal: Option<string>, delta: Option<int>,
                            maxAgeDays: int, lastModified: int, lastUpdated: Option<int>, now: int)
    requires TrackingApplies(true, hasNew, sessionsLocal)
    requires now >= lastModified + maxAgeDays * SECONDS_PER_DAY
    ensures !SkipSession(true, hasNew, sessionsLocal, delta, maxAgeDays, lastModified, lastUpdated, now)
  {
  }

  /** A session filter, even "all", turns the marker rule off: whatever the
      marker, tracking and processors, only the delta rule is left. */
  lemma FilterDisablesTracking(tracking: bool, hasNew: bool, filter: string, delta: Option<int>,
                               maxAgeDays: int, lastModified: int, lastUpdated: Option<int>, now: int)
    requires filter != ""
    ensures SkipSession(tracking, hasNew, Some(filter), delta, maxAgeDays, lastModified, lastUpdated, now)
        <==> DeltaGiven(delta) && now > lastModified + delta.value
  {
  }

  /** Outside the marker rule, no delta or a zero delta builds every session. */
  lemma NoDeltaBuildsAll(tracking: bool, hasNew: bool, sessionsLocal: Option<string>, delta: Option<int>,
                         maxAgeDays: int, lastModified: int, lastUpdated: Option<int>, now: int)
    requires !TrackingApplies(tracking, hasNew, sessionsLocal)
    requires delta.None? || delta.value == 0
    ensures !SkipSession(tracking, hasNew, sessionsLocal, delta, maxAgeDays, lastModified, lastUpdated, now)
  {
  }

  /** Why the marker leads by a minute: when the write that sets it lands
      within that minute (and moves the store's last-modified time to the
      moment of writing), the next sweep inside the age window skips the
      session. */
  lemma {:induction false} CommittedSessionIsSkipped(lastModified: int, buildStart: int, now: int, writeTime: int,
                                                     laterNow: int, maxAgeDays: int)
    requires !SessionModifiedSince(lastModified, buildStart)
    requires now <= writeTime < now + MARKER_LEAD
    requires laterNow < writeTime + maxAgeDays * SECONDS_PER_DAY
    ensures var marker := CommitLastUpdated(lastModified, buildStart, now, true);
      marker.Some? && SkipSession(true, false, None, None, maxAgeDays, writeTime, marker, laterNow)
  {
    var marker := CommitLastUpdated(lastModified, buildStart, now, true);
    assert marker == Some(now + MARKER_LEAD);
  }

  /** A write that lands a minute or more late leaves the session looking
      modified, so the next sweep builds it again. */
  lemma SlowMarkerWriteRebuilds(lastModified: int, buildStart: int, now: int, writeTime: int,
                                laterNow: int, maxAgeDays: int, writeOk: bool)
    requires writeTime >= now + MARKER_LEAD
    ensures !SkipSession(true, false, None, None, maxAgeDays, writeTime,
                         CommitLastUpdated(lastModified, buildStart, now, writeOk), laterNow)
  {
  }

  /** A marker write the store refuses leaves the session unmarked, so the
      next sweep under the marker rule builds it again. */
  lemma RefusedMarkerWriteRebuilds(lastModified: int, buildStart: int, now: int, laterModified: int,
                                   laterNow: int, maxAgeDays: int)
    ensures !SkipSession(true, false, None, None, maxAgeDays, laterModified,
                         CommitLastUpdated(lastModified, buildStart, now, false), laterNow)
  {
  }

  // ---------------------------------------------------------------------
  // New processors, prerun and afterrun

  /** `has_new_processors`: some prescribed processor name is not the
      processor type of any assessor of the project. */
  function HasNewProcessors(procNames: seq<string>, assessorTypes: seq<string>): (r: bool)
    ensures r <==> exists i :: 0 <= i < |procNames| && procNames[i] !in assessorTypes
  {
    var missing := (set n | n in procNames) - (set t | t in assessorTypes);
    if missing != {} then
      var n :| n in missing;
      assert exists i :: 0 <= i < |procNames| && procNames[i] == n;
      true
    else
      assert forall i :: 0 <= i < |procNames| ==> procNames[i] in missing || procNames[i] in assessorTypes;
      false
  }

  /** The settings name module prerun gets: "manual_update" for a run with a
      session filter, the lock prefix otherwise. */
  function PrerunSettingsName(sessionsLocal: Option<string>, lockPrefix: string): string {
    if Given(sessionsLocal) then "manual_update" else lockPrefix
  }

  /** Module afterrun runs for a project unless the run names sessions. */
  predicate RunsAfterrun(sessionsLocal: Option<string>) {
    !Given(sessionsLocal) || Text.Lower(sessionsLocal.value) == "all"
  }

  /** Afterrun is skipped exactly when the filter names sessions; the filter
      "all" (in any case) is a manual run for prerun and yet runs afterrun. */
  lemma AfterrunUnlessSessionsNamed(sessionsLocal: Option<string>, lockPrefix: string)
    ensures RunsAfterrun(sessionsLocal) <==> !NamesSessions(sessionsLocal)
    ensures Given(sessionsLocal) && !NamesSessions(sessionsLocal) ==>
      PrerunSettingsName(sessionsLocal, lockPrefix) == "manual_update" && RunsAfterrun(sessionsLocal)
  {
  }

  // ---------------------------------------------------------------------
  // Module rounds

  /** The number of module rounds `build_session` runs: a round ends the loop
      when the session was not modified since the round started; three
      rounds at most. */
  function ModuleRounds(lastModifiedAfter: nat -> int, roundStart: nat -> int): (n: nat)
    ensures 1 <= n <= 3
    ensures forall i :: 0 <= i < n - 1 ==> SessionModifiedSince(lastModifiedAfter(i), roundStart(i))
    ensures n < 3 ==> !SessionModifiedSince(lastModifiedAfter(n - 1), roundStart(n - 1))
  {
    if !SessionModifiedSince(lastModifiedAfter(0), roundStart(0)) then 1
    else if !SessionModifiedSince(lastModifiedAfter(1), roundStart(1)) then 2
    else 3
  }

  /** The module loop of `build_session`; `lastModifiedAfter(i)` and
      `roundStart(i)` are the store's last-modified time read after round
      `i` and the clock at its start. */
  method ConvergeModules(lastModifiedAfter: nat -> int, roundStart: nat -> int) returns (rounds: nat)
    ensures rounds == ModuleRounds(lastModifiedAfter, roundStart)
  {
    var modCount := 0;
    while modCount < 3
      invariant modCount <= 3
      invariant forall i :: 0 <= i < modCount ==> SessionModifiedSince(lastModifiedAfter(i), roundStart(i))
    {
      if !SessionModifiedSince(lastModifiedAfter(modCount), roundStart(modCount)) {
        return modCount + 1;
      }
      modCount := modCount + 1;
    }
    return 3;
  }

  // ---------------------------------------------------------------------
  // Assessor lookup

  /** The first assessor carrying the name (the session lookup, which breaks). */
  function FirstWithLabel(assessors: seq<AssessorInfo>, name: string): (r: Option<AssessorInfo>)
    ensures r.None? <==> forall i :: 0 <= i < |assessors| ==> assessors[i].assessorLabel != name
    ensures r.Some? ==>
      exists i :: && 0 <= i < |assessors| && assessors[i] == r.value && r.value.assessorLabel == name
                  && forall k :: 0 <= k < i ==> assessors[k].assessorLabel != name
  {
    if assessors == [] then None
    else if assessors[0].assessorLabel == name then Some(assessors[0])
    else
      var r := FirstWithLabel(assessors[1..], name);
      assert forall i :: 1 <= i < |assessors| ==> assessors[i] == assessors[1..][i - 1];
      r
  }

  /** The last assessor carrying the name (the scan lookup, which has no break). */
  function LastWithLabel(assessors: seq<AssessorInfo>, name: string): (r: Option<AssessorInfo>)
    ensures r.None? <==> forall i :: 0 <= i < |assessors| ==> assessors[i].assessorLabel != name
    ensures r.Some? ==>
      exists i :: && 0 <= i < |assessors| && assessors[i] == r.value && r.value.assessorLabel == name
                  && forall k :: i < k < |assessors| ==> assessors[k].assessorLabel != name
  {
    if assessors == [] then None
    else if assessors[|assessors| - 1].assessorLabel == name then Some(assessors[|assessors| - 1])
    else LastWithLabel(assessors[..|assessors| - 1], name)
  }

  /** The lookup loop of `build_session_processors`. */
  method FindFirstAssessor(assessors: seq<AssessorInfo>, name: string) returns (found: Option<AssessorInfo>)
    ensures found == FirstWithLabel(assessors, name)
  {
    found := None;
    var i := 0;
    while i < |assessors|
      invariant i <= |assessors|
      invariant forall k :: 0 <= k < i ==> assessors[k].assessorLabel != name
    {
      if assessors[i].assessorLabel == name {
        found := Some(assessors[i]);
        FirstWithLabelAt(assessors, name, i);
        return;
      }
      i := i + 1;
    }
  }

  lemma {:induction false} FirstWithLabelAt(assessors: seq<AssessorInfo>, name: string, i: nat)
    requires i < |assessors| && assessors[i].assessorLabel == name
    requires forall k :: 0 <= k < i ==> assessors[k].assessorLabel != name
    ensures FirstWithLabel(assessors, name) == Some(assessors[i])
  {
    if i > 0 {
      FirstWithLabelAt(assessors[1..], name, i - 1);
    }
  }

  /** The lookup loop of `build_scan_processors`: every match overwrites the previous one. */
  method FindLastAssessor(assessors: seq<AssessorInfo>, name: string) returns (found: Option<AssessorInfo>)
    ensures found == LastWithLabel(assessors, name)
  {
    found := None;
    var i := 0;
    while i < |assessors|
      invariant i <= |assessors|
      invariant found == LastWithLabel(assessors[..i], name)
    {
      assert assessors[..i + 1][..i] == assessors[..i];
      if assessors[i].assessorLabel == name {
        found := Some(assessors[i]);
      }
      i := i + 1;
    }
    assert assessors[..i] == assessors;
  }

  /** No two assessors share a name. */
  predicate UniqueAssessorLabels(assessors: seq<AssessorInfo>) {
    forall i, j :: 0 <= i < j < |assessors| ==> assessors[i].assessorLabel != assessors[j].assessorLabel
  }

  /** With unique labels the two lookups agree. */
  lemma FirstIsLastForUniqueLabels(assessors: seq<AssessorInfo>, name: string)
    requires UniqueAssessorLabels(assessors)
    ensures FirstWithLabel(assessors, name) == LastWithLabel(assessors, name)
  {
    var first := FirstWithLabel(assessors, name);
    var last := LastWithLabel(assessors, name);
    if first.Some? {
      var i :| 0 <= i < |assessors| && assessors[i] == first.value && first.value.assessorLabel == name;
      var j :| 0 <= j < |assessors| && assessors[j] == last.value && last.value.assessorLabel == name;
      assert i == j;
    }
  }

  /** Two assessors with one name: the session lookup sees the first, the scan lookup the last. */
  lemma LookupsDifferOnDuplicateLabels(a: AssessorInfo, b: AssessorInfo)
    requires a.assessorLabel == b.assessorLabel && a != b
    ensures FirstWithLabel([a, b], a.assessorLabel) == Some(a)
    ensures LastWithLabel([a, b], a.assessorLabel) == Some(b)
  {
    assert [a, b][..1] == [a];
  }

  // ---------------------------------------------------------------------
  // Per-processor decisions

  /** What the processor plugin answers for one processor on one session or
      scan: `should_run`, `get_assessor_name`, and `has_inputs`. */
  datatype PluginAnswer = PluginAnswer(shouldRun: bool, assessorName: string, hasInputs: int, inputsQc: QcStatus)

  /** What the builder does with one processor. */
  datatype Action =
    | NotRun                                        // should_run said no
    | LeftAlone(name: string)                      // an existing assessor another phase handles
    | SetStatus(name: string, procStatus: Option<ProcStatus>, qcStatus: QcStatus)  // store-direct: status written, procStatus None when left as is
    | QueueTask(name: string, refreshFirst: bool)  // disk queue: task built, status refreshed first when asked

  predicate QaReopened(a: AssessorInfo) {
    a.qcStatus == Rerun || a.qcStatus == Reproc
  }

  /** The disk-queue rebuild test; scan processors also rebuild a task that
      already needs to run. Processing statuses are compared as stored text. */
  predicate RebuildsIntoQueue(existing: Option<AssessorInfo>, scanLevel: bool) {
    existing.None? || ProcStatusIs(existing.value, NeedInputs) ||
    (scanLevel && ProcStatusIs(existing.value, NeedToRun)) || QaReopened(existing.value)
  }

  /** The store-direct test: only a missing assessor or one waiting for inputs. */
  predicate ActsInStore(existing: Option<AssessorInfo>) {
    existing.None? || ProcStatusIs(existing.value, NeedInputs)
  }

  /** The decision for one processor given the assessor the lookup found. */
  function Decide(diskQueue: bool, scanLevel: bool, existing: Option<AssessorInfo>, answer: PluginAnswer): (act: Action)
    ensures !answer.shouldRun <==> act == NotRun
    ensures act.QueueTask? <==> answer.shouldRun && diskQueue && RebuildsIntoQueue(existing, scanLevel)
    ensures act.QueueTask? ==> (act.refreshFirst <==> existing.Some? && QaReopened(existing.value))
    ensures act.SetStatus? <==> answer.shouldRun && !diskQueue && ActsInStore(existing)
    ensures act.SetStatus? ==>
      && (act.procStatus == Some(NeedToRun) <==> answer.hasInputs == 1)
      && (act.procStatus == Some(NoData) <==> answer.hasInputs == -1)
      && (act.procStatus.None? <==> answer.hasInputs != 1 && answer.hasInputs != -1)
      && act.qcStatus == (if answer.hasInputs == 1 then JobPending else answer.inputsQc)
    ensures act != NotRun ==> act.name == answer.assessorName
  {
    var name := answer.assessorName;
    if !answer.shouldRun then NotRun
    else if diskQueue then
      if RebuildsIntoQueue(existing, scanLevel) then
        QueueTask(name, existing.Some? && QaReopened(existing.value))
      else LeftAlone(name)
    else if ActsInStore(existing) then
      if answer.hasInputs == 1 then SetStatus(name, Some(NeedToRun), JobPending)
      else if answer.hasInputs == -1 then SetStatus(name, Some(NoData), answer.inputsQc)
      else SetStatus(name, None, answer.inputsQc)
    else LeftAlone(name)
  }

  /** The decision `build_session_processors` takes for one processor. */
  function SessionAction(launcherType: string, assessors: seq<AssessorInfo>, answer: PluginAnswer): Action {
    Decide(BuildsIntoDiskQueue(launcherType), false, FirstWithLabel(assessors, answer.assessorName), answer)
  }

  /** The decision `build_scan_processors` takes for one processor. */
  function ScanAction(launcherType: string, assessors: seq<AssessorInfo>, answer: PluginAnswer): Action {
    Decide(BuildsIntoDiskQueue(launcherType), true, LastWithLabel(assessors, answer.assessorName), answer)
  }

  /** `build_session_processors`: one decision per processor, in order. */
  method BuildSessionProcessors(launcherType: string, assessors: seq<AssessorInfo>, procs: seq<Processor>,
                                answer: Processor -> PluginAnswer)
    returns (actions: seq<Action>)
    ensures |actions| == |procs|
    ensures forall j :: 0 <= j < |procs| ==> actions[j] == SessionAction(launcherType, assessors, answer(procs[j]))
  {
    ghost var expected := seq(|procs|, k requires 0 <= k < |procs| => SessionAction(launcherType, assessors, answer(procs[k])));
    actions := [];
    for j := 0 to |procs|
      invariant actions == expected[..j]
    {
      Seqs.PrefixSnoc(expected, j);
      var act := DecideSessionProcessor(launcherType, assessors, answer(procs[j]));
      actions := actions + [act];
    }
    assert expected[..|procs|] == expected;
  }

  /** The loop body of the session pass: a processor that should not run is
      passed over before the assessors are searched. */
  method DecideSessionProcessor(launcherType: string, assessors: seq<AssessorInfo>, ans: PluginAnswer) returns (act: Action)
    ensures act == SessionAction(launcherType, assessors, ans)
  {
    if !ans.shouldRun {
      return NotRun;
    }
    var existing := FindFirstAssessor(assessors, ans.assessorName);
    act := Decide(BuildsIntoDiskQueue(launcherType), false, existing, ans);
  }

  /** `build_scan_processors` for one scan: one decision per processor, in order. */
  method BuildScanProcessors(launcherType: string, assessors: seq<AssessorInfo>, procs: seq<Processor>,
                             answer: Processor -> PluginAnswer)
    returns (actions: seq<Action>)
    ensures |actions| == |procs|
    ensures forall j :: 0 <= j < |procs| ==> actions[j] == ScanAction(launcherType, assessors, answer(procs[j]))
  {
    ghost var expected := seq(|procs|, k requires 0 <= k < |procs| => ScanAction(launcherType, assessors, answer(procs[k])));
    actions := [];
    for j := 0 to |procs|
      invariant actions == expected[..j]
    {
      Seqs.PrefixSnoc(expected, j);
      var act := DecideScanProcessor(launcherType, assessors, answer(procs[j]));
      actions := actions + [act];
    }
    assert expected[..|procs|] == expected;
  }

  /** The loop body of the scan pass: a processor that should not run is
      passed over before the assessors are searched. */
  method DecideScanProcessor(launcherType: string, assessors: seq<AssessorInfo>, ans: PluginAnswer) returns (act: Action)
    ensures act == ScanAction(launcherType, assessors, ans)
  {
    if !ans.shouldRun {
      return NotRun;
    }
    var existing := FindLastAssessor(assessors, ans.assessorName);
    act := Decide(BuildsIntoDiskQueue(launcherType), true, existing, ans);
  }

  /** In store-direct modes a session processor that runs writes a status
      exactly when no assessor has its name or the first one with its name
      waits for inputs. */
  lemma {:induction false} StoreDirectWritesOnlyNewOrWaiting(launcherType: string, assessors: seq<AssessorInfo>,
                                                             answer: PluginAnswer)
    requires !BuildsIntoDiskQueue(launcherType) && answer.shouldRun
    ensures SessionAction(launcherType, assessors, answer).SetStatus? <==>
      (forall i :: 0 <= i < |assessors| ==> assessors[i].assessorLabel != answer.assessorName) ||
      (exists i :: 0 <= i < |assessors| && assessors[i].assessorLabel == answer.assessorName &&
         ProcStatusIs(assessors[i], NeedInputs) &&
         forall k :: 0 <= k < i ==> assessors[k].assessorLabel != answer.assessorName)
  {
    var existing := FirstWithLabel(assessors, answer.assessorName);
    if existing.Some? {
      var i :| 0 <= i < |assessors| && assessors[i] == existing.value &&
        existing.value.assessorLabel == answer.assessorName &&
        forall k :: 0 <= k < i ==> assessors[k].assessorLabel != answer.assessorName;
      forall j | 0 <= j < |assessors| && assessors[j].assessorLabel == answer.assessorName &&
        forall k :: 0 <= k < j ==> assessors[k].assessorLabel != answer.assessorName
        ensures j == i
      {
      }
    }
  }

  /** In disk-queue modes an assessor that already needs to run is rebuilt
      by a scan processor and left alone by a session processor. */
  lemma ScanRebuildsWhatSessionLeaves(launcherType: string, existing: AssessorInfo, answer: PluginAnswer)
    requires BuildsIntoDiskQueue(launcherType) && answer.shouldRun
    requires existing.assessorLabel == answer.assessorName
    requires ProcStatusIs(existing, NeedToRun) && !QaReopened(existing)
    ensures ScanAction(launcherType, [existing], answer) == QueueTask(answer.assessorName, false)
    ensures SessionAction(launcherType, [existing], answer) == LeftAlone(answer.assessorName)
  {
  }

  /** A status carried as text is acted on like the named status: in
      store-direct modes an assessor whose stored status reads NEED_INPUTS
      gets NEED_TO_RUN and JOB_PENDING once its inputs are ready, and in
      disk-queue modes it is queued again. */
  lemma TextCarriedNeedInputsIsBuilt(existing: AssessorInfo, answer: PluginAnswer, scanLevel: bool)
    requires existing.procStatus == OtherProc("NEED_INPUTS") && answer.shouldRun && answer.hasInputs == 1
    ensures Decide(false, scanLevel, Some(existing), answer) == SetStatus(answer.assessorName, Some(NeedToRun), JobPending)
    ensures Decide(true, scanLevel, Some(existing), answer).QueueTask?
  {
  }

  // ---------------------------------------------------------------------
  // One session

  /** `build_session`: the module rounds, then the scan processors of every
      scan (only when there are scan processors), then the session
      processors. `scanAnswer(k)` is what the plugins answer on scan `k`. */
  method BuildSession(launcherType: string, assessors: seq<AssessorInfo>,
                      sessProcs: seq<Processor>, scanProcs: seq<Processor>, scanCount: nat,
                      lastModifiedAfter: nat -> int, roundStart: nat -> int,
                      sessAnswer: Processor -> PluginAnswer, scanAnswer: nat -> Processor -> PluginAnswer)
    returns (rounds: nat, scanActions: seq<seq<Action>>, sessionActions: seq<Action>)
    ensures rounds == ModuleRounds(lastModifiedAfter, roundStart)
    ensures |scanActions| == (if scanProcs == [] then 0 else scanCount)
    ensures forall k :: 0 <= k < |scanActions| ==> |scanActions[k]| == |scanProcs|
    ensures forall k, j :: 0 <= k < |scanActions| && 0 <= j < |scanProcs| ==>
      scanActions[k][j] == ScanAction(launcherType, assessors, scanAnswer(k)(scanProcs[j]))
    ensures |sessionActions| == |sessProcs|
    ensures forall j :: 0 <= j < |sessProcs| ==>
      sessionActions[j] == SessionAction(launcherType, assessors, sessAnswer(sessProcs[j]))
  {
    rounds := ConvergeModules(lastModifiedAfter, roundStart);
    scanActions := [];
    if scanProcs != [] {
      for k := 0 to scanCount
        invariant |scanActions| == k
        invariant forall k' :: 0 <= k' < k ==> |scanActions[k']| == |scanProcs|
        invariant forall k', j :: 0 <= k' < k && 0 <= j < |scanProcs| ==>
          scanActions[k'][j] == ScanAction(launcherType, assessors, scanAnswer(k')(scanProcs[j]))
      {
        var actions := BuildScanProcessors(launcherType, assessors, scanProcs, scanAnswer(k));
        scanActions := scanActions + [actions];
        assert scanActions[k] == actions;
      }
    }
    sessionActions := [];
    if sessProcs != [] {
      sessionActions := BuildSessionProcessors(launcherType, assessors, sessProcs, sessAnswer);
    }
  }
}
