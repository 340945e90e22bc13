/** The front end's project list and run bookkeeping (src/stores/project.ts):
    the managed projects, which runs are live, the log lines of each run and
    the selected project. Every back-end call is an input: the node list
    fetch, whether a run started, and each project's rescan. */
module ProjectStore {
  import opened Wrappers
  import opened Text
  import opened Types
  import Sequences
  import NodeStore

  // -----------------------------------------------------------------------
  // Run identifiers

  /** The id of one script run of one project: `${project.id}:${script}`. */
  function RunId(projectId: string, script: string): (id: string)
    ensures |id| == |projectId| + 1 + |script|
    ensures StartsWith(id, projectId) && id[|projectId|] == ':'
  {
    projectId + ":" + script
  }

  /** A run id splits back into its project id and script at its first ':'
      when the project id has none. */
  lemma RunIdSplits(projectId: string, script: string)
    requires ':' !in projectId
    ensures var id := RunId(projectId, script);
      var k := Sequences.FindIndex(id, (c: char) => c == ':');
      && k == |projectId|
      && id[..k] == projectId && id[k + 1..] == script
  {
    var id := RunId(projectId, script);
    var k := Sequences.FindIndex(id, (c: char) => c == ':');
    forall j | 0 <= j < |projectId| ensures id[j] != ':' {
      assert id[j] == projectId[j];
    }
    assert id[..|projectId|] == projectId;
    assert id[|projectId| + 1..] == script;
  }

  /** Without that condition two different runs share an id: project "a:b"
      running "c" and project "a" running "b:c". */
  lemma RunIdsCollide()
    ensures RunId("a:b", "c") == RunId("a", "b:c")
  {
  }

  // -----------------------------------------------------------------------
  // Choosing the Node installation of a run

  predicate IsDefaultLabel(nodeVersion: string) {
    nodeVersion == NodeStore.DEFAULT_LABEL || nodeVersion == "Default"
  }

  predicate HasLabel(nodeVersion: string, v: NodeVersion) { v.version == nodeVersion }

  /** The node path a run is started with: the path of the first entry
      labelled with the project's version; failing that, for a default nodeVersion,
      the first system entry's path; otherwise none. The "System Default"
      marker means none. "" stands for none. */
  function ResolveNodePath(nodeVersion: string, versions: seq<NodeVersion>): (path: string)
    ensures path != NodeStore.SYSTEM_DEFAULT
    ensures nodeVersion == "" ==> path == ""
    ensures path != "" ==> exists i :: 0 <= i < |versions| && versions[i].path == path
  {
    var found :=
      if nodeVersion == "" then ""
      else
        var i := Sequences.FindIndex(versions, (v: NodeVersion) => HasLabel(nodeVersion, v));
        if i >= 0 then versions[i].path
        else if IsDefaultLabel(nodeVersion) then
          var j := Sequences.FindIndex(versions, NodeStore.IsSystem);
          if j >= 0 then versions[j].path else ""
        else "";
    if found == NodeStore.SYSTEM_DEFAULT then "" else found
  }

  /** Which entry decides the path: the first one carrying the nodeVersion, and only
      when none does and the nodeVersion is a default one, the first system entry. */
  lemma ResolveNodePathChoice(nodeVersion: string, versions: seq<NodeVersion>, i: nat)
    requires nodeVersion != "" && i < |versions|
    ensures versions[i].version == nodeVersion && (forall j :: 0 <= j < i ==> versions[j].version != nodeVersion) ==>
              ResolveNodePath(nodeVersion, versions) == (if versions[i].path == NodeStore.SYSTEM_DEFAULT then "" else versions[i].path)
    ensures (forall j :: 0 <= j < |versions| ==> versions[j].version != nodeVersion) &&
            IsDefaultLabel(nodeVersion) && versions[i].source == System &&
            (forall j :: 0 <= j < i ==> versions[j].source != System) ==>
              ResolveNodePath(nodeVersion, versions) == (if versions[i].path == NodeStore.SYSTEM_DEFAULT then "" else versions[i].path)
    ensures (forall j :: 0 <= j < |versions| ==> versions[j].version != nodeVersion) && !IsDefaultLabel(nodeVersion) ==>
              ResolveNodePath(nodeVersion, versions) == ""
  {
    var byLabel := Sequences.FindIndex(versions, (v: NodeVersion) => HasLabel(nodeVersion, v));
    var bySource := Sequences.FindIndex(versions, NodeStore.IsSystem);
    if versions[i].version == nodeVersion && (forall j :: 0 <= j < i ==> versions[j].version != nodeVersion) {
      assert byLabel == i;
    }
    if (forall j :: 0 <= j < |versions| ==> versions[j].version != nodeVersion) && versions[i].source == System &&
       (forall j :: 0 <= j < i ==> versions[j].source != System) {
      assert byLabel == -1;
      assert bySource == i;
    }
  }

  /** When no entry carries the nodeVersion, the path is empty unless the
      nodeVersion is a default one and a system entry exists. */
  lemma {:induction false} ResolveNodePathUnmatched(nodeVersion: string, versions: seq<NodeVersion>)
    requires forall j :: 0 <= j < |versions| ==> versions[j].version != nodeVersion
    ensures !IsDefaultLabel(nodeVersion) ==> ResolveNodePath(nodeVersion, versions) == ""
    ensures (forall j :: 0 <= j < |versions| ==> versions[j].source != System) ==>
              ResolveNodePath(nodeVersion, versions) == ""
  {
    if nodeVersion != "" {
      var byLabel := Sequences.FindIndex(versions, (v: NodeVersion) => HasLabel(nodeVersion, v));
      var bySource := Sequences.FindIndex(versions, NodeStore.IsSystem);
      assert byLabel == -1;
      if forall j :: 0 <= j < |versions| ==> versions[j].source != System {
        assert bySource == -1;
      }
    }
  }

  const STARTING_LABEL := "[Runner] Starting script: "
  const SELECTED_LABEL := "[Runner] Selected Node Version: "
  const RESOLVED_LABEL := "[Runner] Resolved Node Path: "

  /** The three lines a run's log starts with: each is its label followed by
      the script, the project's nodeVersion ("None" when it has none) and the
      resolved path ("System Default" when there is none), so each value can
      be read back from its line. */
  function RunnerLines(script: string, nodeVersion: string, path: string): (lines: seq<string>)
    ensures |lines| == 3
    ensures StartsWith(lines[0], STARTING_LABEL) && lines[0][|STARTING_LABEL|..] == script
    ensures StartsWith(lines[1], SELECTED_LABEL)
    ensures lines[1][|SELECTED_LABEL|..] == (if nodeVersion == "" then "None" else nodeVersion)
    ensures StartsWith(lines[2], RESOLVED_LABEL)
    ensures lines[2][|RESOLVED_LABEL|..] == (if path == "" then NodeStore.SYSTEM_DEFAULT else path)
  {
    var version := if nodeVersion != "" then nodeVersion else "None";
    var resolved := if path != "" then path else NodeStore.SYSTEM_DEFAULT;
    LabelledLine(STARTING_LABEL, script);
    LabelledLine(SELECTED_LABEL, version);
    LabelledLine(RESOLVED_LABEL, resolved);
    [STARTING_LABEL + script, SELECTED_LABEL + version, RESOLVED_LABEL + resolved]
  }

  lemma LabelledLine(tag: string, value: string)
    ensures StartsWith(tag + value, tag) && (tag + value)[|tag|..] == value
  {
    assert (tag + value)[..|tag|] == tag;
  }

  /** What is handed to the back end to start a run. */
  datatype RunRequest = RunRequest(id: string, path: string, script: string, packageManager: string, nodePath: string)

  // -----------------------------------------------------------------------
  // Project list edits

  function Ids(projects: seq<Project>): (ids: seq<string>)
    ensures |ids| == |projects|
    ensures forall i :: 0 <= i < |projects| ==> ids[i] == projects[i].id
  {
    seq(|projects|, i requires 0 <= i < |projects| => projects[i].id)
  }

  predicate SameId(id: string, p: Project) { p.id == id }

  /** `updateProject`: the first project with the same id replaced. */
  function WithUpdated(projects: seq<Project>, project: Project): seq<Project> {
    var i := Sequences.FindIndex(projects, (p: Project) => SameId(project.id, p));
    if i == -1 then projects else projects[i := project]
  }

  /** An update never changes the list of ids; it replaces exactly the first
      project with the new one's id, if there is one. */
  lemma UpdateKeepsIds(projects: seq<Project>, project: Project)
    ensures Ids(WithUpdated(projects, project)) == Ids(projects)
    ensures project.id in Ids(projects) <==> project in WithUpdated(projects, project)
    ensures project.id !in Ids(projects) ==> WithUpdated(projects, project) == projects
    ensures forall k :: 0 <= k < |projects| && projects[k].id == project.id
                        && (forall j :: 0 <= j < k ==> projects[j].id != project.id) ==>
              WithUpdated(projects, project) == projects[k := project]
  {
    var i := Sequences.FindIndex(projects, (p: Project) => SameId(project.id, p));
    if project.id in Ids(projects) {
      var k :| 0 <= k < |projects| && Ids(projects)[k] == project.id;
      assert i != -1;
      assert WithUpdated(projects, project)[i] == project;
    } else {
      assert forall j :: 0 <= j < |projects| ==> Ids(projects)[j] != project.id;
      assert i == -1;
    }
    forall k | 0 <= k < |projects| && projects[k].id == project.id
               && (forall j :: 0 <= j < k ==> projects[j].id != project.id)
      ensures WithUpdated(projects, project) == projects[k := project]
    {
      assert SameId(project.id, projects[k]);
      assert i == k;
    }
  }

  /** `removeProject`: every project with that id dropped, the rest in order. */
  function WithoutProject(projects: seq<Project>, id: string): seq<Project> {
    Sequences.Filter(projects, (p: Project) => p.id != id)
  }

  lemma RemoveDropsExactlyThatId(projects: seq<Project>, id: string)
    ensures id !in Ids(WithoutProject(projects, id))
    ensures forall p :: p in WithoutProject(projects, id) <==> p in projects && p.id != id
  {
    var r := WithoutProject(projects, id);
    forall p ensures p in r <==> p in projects && p.id != id {
      Sequences.FilterMembers(projects, (q: Project) => q.id != id, p);
    }
  }

  /** The project as `refreshAll` leaves it: the rescanned scripts when the
      scan succeeds, unchanged otherwise. */
  function Refreshed(p: Project, scan: Result<ProjectInfo, string>): Project {
    if scan.Ok? then p.(scripts := scan.value.scripts) else p
  }

  function RefreshedAll(projects: seq<Project>, scans: seq<Result<ProjectInfo, string>>): (r: seq<Project>)
    requires |scans| == |projects|
    ensures |r| == |projects|
    ensures forall i :: 0 <= i < |projects| && scans[i].Ok? ==> r[i].scripts == scans[i].value.scripts
  {
    seq(|projects|, i requires 0 <= i < |projects| => Refreshed(projects[i], scans[i]))
  }

  /** A refresh changes only scripts: ids, names, paths, kinds, versions and
      package managers stay, and a failed scan leaves its project as it was. */
  lemma RefreshChangesOnlyScripts(projects: seq<Project>, scans: seq<Result<ProjectInfo, string>>)
    requires |scans| == |projects|
    ensures Ids(RefreshedAll(projects, scans)) == Ids(projects)
    ensures forall i :: 0 <= i < |projects| ==>
              RefreshedAll(projects, scans)[i].(scripts := projects[i].scripts) == projects[i]
    ensures forall i :: 0 <= i < |projects| && scans[i].Err? ==> RefreshedAll(projects, scans)[i] == projects[i]
    ensures forall i :: 0 <= i < |projects| && scans[i].Ok? ==>
              RefreshedAll(projects, scans)[i].scripts == scans[i].value.scripts
  {
    var r := RefreshedAll(projects, scans);
    assert forall i :: 0 <= i < |projects| ==> r[i] == Refreshed(projects[i], scans[i]);
  }

  /** A log with one more line for `id`, started empty when it had none. */
  function Appended(logs: map<string, seq<string>>, id: string, line: string): (r: map<string, seq<string>>)
    ensures id in r && r.Keys == logs.Keys + {id}
    ensures |r[id]| >= 1 && r[id][|r[id]| - 1] == line
    ensures r[id][..|r[id]| - 1] == (if id in logs then logs[id] else [])
    ensures forall k :: k in logs && k != id ==> r[k] == logs[k]
  {
    logs[id := (if id in logs then logs[id] else []) + [line]]
  }

  const EXITED_LINE := "[Process exited]"

  class ProjectStore {
    var projects: seq<Project>
    /** Whether each run id is live; an absent id is not. */
    var runningStatus: map<string, bool>
    var logs: map<string, seq<string>>
    var activeProjectId: Option<string>

    constructor ()
      ensures projects == [] && runningStatus == map[] && logs == map[] && activeProjectId == None
    {
      projects := [];
      runningStatus := map[];
      logs := map[];
      activeProjectId := None;
    }

    predicate IsRunning(runId: string)
      reads this
    {
      runId in runningStatus && runningStatus[runId]
    }

    /** The output listener: one line appended to the run's log. */
    method OnOutput(id: string, data: string)
      modifies this`logs
      ensures logs == Appended(old(logs), id, data)
    {
      var lines: seq<string> := [];
      if id in logs {
        lines := logs[id];
      }
      logs := logs[id := lines + [data]];
    }

    /** The exit listener: the run is no longer live and its log says so. */
    method OnExit(id: string)
      modifies this`logs, this`runningStatus
      ensures runningStatus == old(runningStatus)[id := false]
      ensures logs == Appended(old(logs), id, EXITED_LINE)
      ensures !IsRunning(id)
    {
      runningStatus := runningStatus[id := false];
      OnOutput(id, EXITED_LINE);
    }

    method AddProject(project: Project)
      modifies this`projects
      ensures projects == old(projects) + [project]
    {
      projects := projects + [project];
    }

    method UpdateProject(project: Project)
      modifies this`projects
      ensures projects == WithUpdated(old(projects), project)
    {
      var index := Sequences.FindIndex(projects, (p: Project) => SameId(project.id, p));
      if index != -1 {
        projects := projects[index := project];
      }
    }

    /** `removeProject`: the selection is cleared when it was that project. */
    method RemoveProject(id: string)
      modifies this`projects, this`activeProjectId
      ensures projects == WithoutProject(old(projects), id)
      ensures activeProjectId == if old(activeProjectId) == Some(id) then None else old(activeProjectId)
    {
      projects := Sequences.Filter(projects, (p: Project) => p.id != id);
      if activeProjectId == Some(id) {
        activeProjectId := None;
      }
    }

    method ClearLog(runId: string)
      modifies this`logs
      ensures logs == old(logs)[runId := []]
    {
      logs := logs[runId := []];
    }

    /** `refreshAll`: `scans[i]` is the rescan of the i-th project. */
    method RefreshAll(scans: seq<Result<ProjectInfo, string>>)
      requires |scans| == |projects|
      modifies this`projects
      ensures projects == RefreshedAll(old(projects), scans)
    {
      var updates: seq<Project> := [];
      var i := 0;
      while i < |projects|
        invariant 0 <= i <= |projects|
        invariant updates == RefreshedAll(projects[..i], scans[..i])
      {
        var p := projects[i];
        if scans[i].Ok? {
          p := p.(scripts := scans[i].value.scripts);
        }
        updates := updates + [p];
        i := i + 1;
      }
      assert projects[..i] == projects && scans[..i] == scans;
      projects := updates;
    }

    /** `runProject`. `nodes` is the node store, `fetched` what loading the
        nvm entries would yield, `started` whether the back end started the
        run. The request handed to the back end is returned; None when the
        run is already live and nothing happens. */
    method RunProject(project: Project, script: string, nodes: NodeStore.NodeStore,
                      fetched: Result<seq<NodeVersion>, string>, started: Outcome<string>)
      returns (request: Option<RunRequest>)
      modifies this`logs, this`runningStatus, this`activeProjectId, nodes`versions, nodes`loading
      ensures var runId := RunId(project.id, script);
        old(IsRunning(runId)) ==>
          && request == None
          && logs == old(logs) && runningStatus == old(runningStatus)
          && activeProjectId == old(activeProjectId) && nodes.versions == old(nodes.versions)
      ensures !old(IsRunning(RunId(project.id, script))) ==>
                request.Some? && request.value.id == StopRequest(project, script) && StopRequest(project, script) in runningStatus
      ensures var runId := RunId(project.id, script);
        var path := ResolveNodePath(project.nodeVersion, nodes.versions);
        !old(IsRunning(runId)) ==>
          && nodes.versions == (if old(nodes.versions) == [] && fetched.Ok?
                                then NodeStore.WithNvmNodes([], fetched.value) else old(nodes.versions))
          && request == Some(RunRequest(runId, project.path, script, project.packageManager.Command(), path))
          && activeProjectId == Some(project.id)
          && runningStatus == old(runningStatus)[runId := started.Pass?]
          && logs == old(logs)[runId := if started.Pass? then RunnerLines(script, project.nodeVersion, path)
                                        else RunnerLines(script, project.nodeVersion, path) + ["Error starting project: " + started.error]]
    {
      var runId := RunId(project.id, script);
      if runId in runningStatus && runningStatus[runId] {
        return None;
      }
      if |nodes.versions| == 0 {
        nodes.LoadNvmNodes(fetched);
      }
      var nodePath := ResolveNodePath(project.nodeVersion, nodes.versions);
      request := StartRun(project, script, nodePath, started);
    }

    /** The part of `runProject` after the node path is chosen. */
    method StartRun(project: Project, script: string, nodePath: string, started: Outcome<string>)
      returns (request: Option<RunRequest>)
      modifies this`logs, this`runningStatus, this`activeProjectId
      ensures request.Some? && request.value.id == StopRequest(project, script)
      ensures var runId := RunId(project.id, script);
        && request == Some(RunRequest(runId, project.path, script, project.packageManager.Command(), nodePath))
        && activeProjectId == Some(project.id)
        && runningStatus == old(runningStatus)[runId := started.Pass?]
        && logs == old(logs)[runId := if started.Pass? then RunnerLines(script, project.nodeVersion, nodePath)
                                      else RunnerLines(script, project.nodeVersion, nodePath) + ["Error starting project: " + started.error]]
    {
      var runId := RunId(project.id, script);
      // The run's log starts afresh with the three runner lines.
      logs := logs[runId := RunnerLines(script, project.nodeVersion, nodePath)];
      activeProjectId := Some(project.id);
      runningStatus := runningStatus[runId := true];
      request := Some(RunRequest(runId, project.path, script, project.packageManager.Command(), nodePath));
      if started.Fail? {
        runningStatus := runningStatus[runId := false];
        logs := logs[runId := logs[runId] + ["Error starting project: " + started.error]];
      }
    }
  }

  /** `stopProject` only forwards the run id; it changes no state. The id is
      the one `runProject` registers and hands to the back end (see the
      ensures of `RunProject` and `StartRun`): the project id, ':' and the
      script. */
  function StopRequest(project: Project, script: string): (id: string)
    ensures |id| == |project.id| + 1 + |script|
    ensures StartsWith(id, project.id) && id[|project.id|] == ':'
    ensures id[|project.id| + 1..] == script
  {
    var id := RunId(project.id, script);
    assert id[|project.id| + 1..] == script;
    id
  }
}
