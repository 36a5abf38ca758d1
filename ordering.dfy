/** The order in which the launcher visits sessions and projects
    (`get_sessions_list`, `get_project_list`, the sorted project list of
    `init_script`). */
module Ordering {
  import opened Status
  import Seqs
  import Text

  /** A session whose last-updated marker is empty has never been swept. */
  predicate NeverSwept(s: SessionInfo) {
    s.lastUpdated == ""
  }

  function Labels(sessions: seq<SessionInfo>): (r: seq<string>)
    ensures |r| == |sessions|
    ensures forall i :: 0 <= i < |sessions| ==> r[i] == sessions[i].sessionLabel
  {
    seq(|sessions|, i requires 0 <= i < |sessions| => sessions[i].sessionLabel)
  }

  /** The label test of the reordering loop. */
  function LabelNotIn(labels: seq<string>): SessionInfo -> bool {
    (s: SessionInfo) => s.sessionLabel !in labels
  }

  /** The label test of a session filter. */
  function LabelIn(names: seq<string>): SessionInfo -> bool {
    (s: SessionInfo) => s.sessionLabel in names
  }

  /** The listed sessions a session filter keeps (all of them for no filter or "all"). */
  function FilterSessions(sessions: seq<SessionInfo>, sessionsLocal: Wrappers.Option<string>): seq<SessionInfo> {
    if NamesSessions(sessionsLocal) then Seqs.Filter(LabelIn(NamedSessions(sessionsLocal)), sessions)
    else sessions
  }

  /** The never-swept sessions in listing order, then every session whose label
      is not the label of a never-swept one, in listing order. */
  function SessionOrder(sessions: seq<SessionInfo>): seq<SessionInfo> {
    var unswept := Seqs.Filter(NeverSwept, sessions);
    unswept + Seqs.Filter(LabelNotIn(Labels(unswept)), sessions)
  }

  /** `get_sessions_list`: filter the project's sessions, then move the
      never-swept ones to the front. */
  method GetSessionsList(sessions: seq<SessionInfo>, sessionsLocal: Wrappers.Option<string>)
    returns (sorted: seq<SessionInfo>)
    ensures sorted == SessionOrder(FilterSessions(sessions, sessionsLocal))
  {
    var listed := FilterSessions(sessions, sessionsLocal);
    var unswept := Seqs.Filter(NeverSwept, listed);
    var newLabels := Labels(unswept);
    var swept: seq<SessionInfo> := [];
    var i := 0;
    while i < |listed|
      invariant i <= |listed|
      invariant swept == Seqs.Filter(LabelNotIn(newLabels), listed[..i])
    {
      assert listed[..i + 1][..i] == listed[..i];
      if listed[i].sessionLabel !in newLabels {
        swept := swept + [listed[i]];
      }
      i := i + 1;
    }
    assert listed[..i] == listed;
    sorted := unswept + swept;
  }

  /** Every never-swept session comes before every swept one. */
  lemma SessionOrderNeverSweptFirst(sessions: seq<SessionInfo>)
    ensures var r := SessionOrder(sessions);
      forall i, j :: 0 <= i < j < |r| && NeverSwept(r[j]) ==> NeverSwept(r[i])
  {
    var unswept := Seqs.Filter(NeverSwept, sessions);
    var rest := Seqs.Filter(LabelNotIn(Labels(unswept)), sessions);
    assert forall k :: 0 <= k < |rest| ==> !NeverSwept(rest[k]);
  }

  /** No two sessions share a label. */
  predicate UniqueLabels(sessions: seq<SessionInfo>) {
    forall i, j :: 0 <= i < j < |sessions| ==> sessions[i].sessionLabel != sessions[j].sessionLabel
  }

  predicate Swept(s: SessionInfo) {
    s.lastUpdated != ""
  }

  /** With unique labels the reordering is a permutation of the listing. */
  lemma SessionOrderPermutation(sessions: seq<SessionInfo>)
    requires UniqueLabels(sessions)
    ensures multiset(SessionOrder(sessions)) == multiset(sessions)
  {
    var unswept := Seqs.Filter(NeverSwept, sessions);
    var labels := Labels(unswept);
    forall s | s in sessions ensures LabelNotIn(labels)(s) <==> Swept(s) {
      if NeverSwept(s) {
        assert s in unswept;
        var n :| 0 <= n < |unswept| && unswept[n] == s;
        assert labels[n] == s.sessionLabel;
      }
    }
    Seqs.FilterCongruent(LabelNotIn(labels), Swept, sessions);
    Seqs.FilterComplement(NeverSwept, Swept, sessions);
  }

  /** A project with sessions A (never swept), B (swept) and C (never swept)
      is visited in the order A, C, B. */
  lemma SessionOrderExample(a: SessionInfo, b: SessionInfo, c: SessionInfo)
    requires a.lastUpdated == "" && c.lastUpdated == "" && b.lastUpdated != ""
    requires b.sessionLabel != a.sessionLabel && b.sessionLabel != c.sessionLabel
    ensures SessionOrder([a, b, c]) == [a, c, b]
  {
    var xs := [a, b, c];
    assert xs[..2] == [a, b] && [a, b][..1] == [a] && [a][..0] == [];
    assert Seqs.Filter(NeverSwept, [a]) == [a];
    assert Seqs.Filter(NeverSwept, [a, b]) == [a];
    var unswept := Seqs.Filter(NeverSwept, xs);
    assert unswept == [a, c];
    var p := LabelNotIn(Labels(unswept));
    assert !p(a) && p(b) && !p(c);
    assert Seqs.Filter(p, [a]) == [];
    assert Seqs.Filter(p, [a, b]) == [b];
  }

  /** A swept session sharing its label with a never-swept one is dropped. */
  lemma SessionOrderDropsSweptDuplicate(a: SessionInfo, b: SessionInfo)
    requires a.lastUpdated == "" && b.lastUpdated != "" && a.sessionLabel == b.sessionLabel
    ensures SessionOrder([a, b]) == [a]
  {
    var xs := [a, b];
    assert xs[..1] == [a] && [a][..0] == [];
    assert Seqs.Filter(NeverSwept, [a]) == [a];
    var unswept := Seqs.Filter(NeverSwept, xs);
    assert unswept == [a];
    var p := LabelNotIn(Labels(unswept));
    assert !p(a) && !p(b);
    assert Seqs.Filter(p, [a]) == [];
  }

  function NotListed(priority: seq<string>): string -> bool {
    (p: string) => p !in priority
  }

  /** `get_project_list`: the priority projects as given, then the other
      projects in their original order. */
  function GetProjectList(priority: seq<string>, allProjects: seq<string>): (r: seq<string>)
    ensures |r| >= |priority| && r[..|priority|] == priority
    ensures forall p :: p in r <==> p in priority || p in allProjects
    ensures forall i :: |priority| <= i < |r| ==> r[i] in allProjects && r[i] !in priority
    ensures r[|priority|..] == Seqs.Filter(NotListed(priority), allProjects)
  {
    var rest := Seqs.Filter(NotListed(priority), allProjects);
    assert forall p :: p in allProjects && p !in priority ==> p in rest by {
      forall p | p in allProjects && p !in priority ensures p in rest {
        var i :| 0 <= i < |allProjects| && allProjects[i] == p;
      }
    }
    assert forall i :: 0 <= i < |rest| ==> rest[i] in allProjects && rest[i] !in priority;
    priority + rest
  }

  /** Without a priority list the projects are walked in their given order,
      repeats included. */
  lemma ProjectListWithoutPriority(allProjects: seq<string>)
    ensures GetProjectList([], allProjects) == allProjects
  {
    Seqs.FilterAll(NotListed([]), allProjects);
  }

  /** A priority project moves to the front and the others keep their order:
      priority [b] over [a, b, c] gives [b, a, c]. */
  lemma ProjectListExample(a: string, b: string, c: string)
    requires a != b && c != b
    ensures GetProjectList([b], [a, b, c]) == [b, a, c]
  {
    var all := [a, b, c];
    var p := NotListed([b]);
    assert all[..2] == [a, b] && [a, b][..1] == [a] && [a][..0] == [];
    assert Seqs.Filter(p, [a]) == [a];
    assert Seqs.Filter(p, [a, b]) == [a];
  }

  /** Without repeated names in either list, no project is visited twice. */
  lemma {:induction false} ProjectListDistinct(priority: seq<string>, allProjects: seq<string>)
    requires Seqs.Distinct(priority) && Seqs.Distinct(allProjects)
    ensures Seqs.Distinct(GetProjectList(priority, allProjects))
  {
    var rest := Seqs.Filter(NotListed(priority), allProjects);
    Seqs.FilterDistinct(NotListed(priority), allProjects);
    var r := GetProjectList(priority, allProjects);
    assert r == priority + rest;
    forall i, j | 0 <= i < j < |r| ensures r[i] != r[j] {
      if i < |priority| && j >= |priority| {
        assert r[j] == rest[j - |priority|];
        assert r[j] !in priority;
      } else if i >= |priority| {
        assert r[i] == rest[i - |priority|] && r[j] == rest[j - |priority|];
      }
    }
  }

  /** `sorted(keys)`: the keys in ascending order, each once. */
  method SortedKeys(keys: set<string>) returns (sorted: seq<string>)
    ensures Text.StrictlySorted(sorted)
    ensures forall k :: k in sorted <==> k in keys
  {
    var rest := keys;
    sorted := [];
    while rest != {}
      invariant rest <= keys
      invariant Text.StrictlySorted(sorted)
      invariant forall k :: k in sorted <==> k in keys && k !in rest
      decreases rest
    {
      var k :| k in rest;
      assert k !in multiset(sorted);
      sorted := Text.Insert(k, sorted);
      assert forall j :: j in sorted <==> j in multiset(sorted);
      rest := rest - {k};
    }
  }
}
