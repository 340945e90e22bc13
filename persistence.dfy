/** Saving and loading the application data file (src/utils/persistence.ts):
    the projects, the settings and the custom Node entries. Reading and
    writing the file and JSON (de)serialisation are inputs and outputs: the
    file's content and its parsed form are parameters, and saving yields the
    record that would be written. */
module Persistence {
  import opened Wrappers
  import opened Types
  import Sequences
  import NodeStore
  import ProjectStore

  /** The parsed data file. Each field is None when it is absent, null or
      otherwise falsy. */
  datatype Data = Data(
    projects: Option<seq<Project>>,
    settings: Option<Settings>,
    customNodes: Option<seq<NodeVersion>>)

  /** The settings store: only the value the data file replaces. */
  class SettingsStore {
    var settings: Settings

    constructor (initial: Settings)
      ensures settings == initial
    {
      settings := initial;
    }
  }

  /** `saveData`: what is written, the projects, the settings and exactly the
      custom Node entries. */
  function SavedData(projects: seq<Project>, settings: Settings, versions: seq<NodeVersion>): (d: Data)
    ensures d.projects == Some(projects) && d.settings == Some(settings)
    ensures d.customNodes.Some?
    ensures forall v :: v in d.customNodes.value <==> v in versions && v.source == Custom
  {
    var custom := Sequences.Filter(versions, NodeStore.IsCustom);
    assert forall v :: v in custom <==> v in versions && v.source == Custom by {
      forall v ensures v in custom <==> v in versions && v.source == Custom {
        Sequences.FilterMembers(versions, NodeStore.IsCustom, v);
      }
    }
    Data(Some(projects), Some(settings), Some(custom))
  }

  function Paths(versions: seq<NodeVersion>): set<string> {
    set v | v in versions :: v.path
  }

  /** The merge of loaded custom entries: each one whose path is not among
      the paths the list had before the merge is appended, in file order. */
  function Merged(versions: seq<NodeVersion>, incoming: seq<NodeVersion>): seq<NodeVersion> {
    var existing := Paths(versions);
    versions + Sequences.Filter(incoming, (n: NodeVersion) => n.path !in existing)
  }

  /** The merge keeps the list as it was in front, and appends only entries
      whose path was new, each one of the loaded entries. Conversely every
      loaded entry whose path was new is appended, as often as it occurs:
      the paths are those from before the merge, so loaded entries sharing a
      new path are all appended. */
  lemma MergedExtends(versions: seq<NodeVersion>, incoming: seq<NodeVersion>)
    ensures Merged(versions, incoming)[..|versions|] == versions
    ensures forall k :: |versions| <= k < |Merged(versions, incoming)| ==>
              Merged(versions, incoming)[k] in incoming && Merged(versions, incoming)[k].path !in Paths(versions)
    ensures forall n :: multiset(Merged(versions, incoming)[|versions|..])[n] ==
              if n.path in Paths(versions) then 0 else multiset(incoming)[n]
  {
    var existing := Paths(versions);
    var added := Sequences.Filter(incoming, (n: NodeVersion) => n.path !in existing);
    forall k | |versions| <= k < |Merged(versions, incoming)|
      ensures Merged(versions, incoming)[k] in incoming && Merged(versions, incoming)[k].path !in existing
    {
      var n := added[k - |versions|];
      Sequences.FilterMembers(incoming, (m: NodeVersion) => m.path !in existing, n);
    }
    assert Merged(versions, incoming)[|versions|..] == added;
    forall n ensures multiset(added)[n] == if n.path in existing then 0 else multiset(incoming)[n] {
      Sequences.FilterMultiset(incoming, (m: NodeVersion) => m.path !in existing, n);
    }
  }

  /** Two loaded entries with the same new path are both appended. */
  lemma MergedKeepsSharedNewPath(versions: seq<NodeVersion>, n: NodeVersion, m: NodeVersion)
    requires n.path == m.path && n.path !in Paths(versions)
    ensures Merged(versions, [n, m]) == versions + [n, m]
  {
    var keep := (e: NodeVersion) => e.path !in Paths(versions);
    assert [n, m][1..] == [m];
    assert Sequences.Filter([m], keep) == [m] + Sequences.Filter([], keep);
    assert Sequences.Filter([n, m], keep) == [n] + Sequences.Filter([m], keep);
  }

  /** Loading the same entries twice adds them once. */
  lemma MergedIdempotent(versions: seq<NodeVersion>, incoming: seq<NodeVersion>)
    ensures Merged(Merged(versions, incoming), incoming) == Merged(versions, incoming)
  {
    var once := Merged(versions, incoming);
    var existing := Paths(versions);
    forall i | 0 <= i < |incoming| ensures incoming[i].path in Paths(once) {
      var n := incoming[i];
      if n.path in existing {
        var w :| w in versions && w.path == n.path;
        assert w in once;
      } else {
        Sequences.FilterMembers(incoming, (m: NodeVersion) => m.path !in existing, n);
        assert n in once;
      }
    }
    Sequences.FilterKeepsNone(incoming, (n: NodeVersion) => n.path !in Paths(once));
    assert once + [] == once;
  }

  /** Data saved from a session and loaded into the same session changes
      nothing: every saved custom entry is already present. Loaded into an
      empty node list, the custom entries come back in their saved order. */
  lemma SaveThenLoad(projects: seq<Project>, settings: Settings, versions: seq<NodeVersion>)
    ensures var d := SavedData(projects, settings, versions);
      && Merged(versions, d.customNodes.value) == versions
      && Merged([], d.customNodes.value) == Sequences.Filter(versions, NodeStore.IsCustom)
  {
    var custom := Sequences.Filter(versions, NodeStore.IsCustom);
    var existing := Paths(versions);
    forall i | 0 <= i < |custom| ensures custom[i].path in existing {
      Sequences.FilterMembers(versions, NodeStore.IsCustom, custom[i]);
    }
    Sequences.FilterKeepsNone(custom, (n: NodeVersion) => n.path !in existing);
    assert versions + [] == versions;
    Sequences.FilterKeepsAll(custom, (n: NodeVersion) => n.path !in Paths([]));
    assert [] + custom == custom;
  }

  /** The merge loop of `loadData`: the paths are collected once, before any
      entry is appended. */
  method MergeCustomNodes(nodeStore: NodeStore.NodeStore, incoming: seq<NodeVersion>)
    modifies nodeStore`versions
    ensures nodeStore.versions == Merged(old(nodeStore.versions), incoming)
  {
    var existing := Paths(nodeStore.versions);
    var i := 0;
    while i < |incoming|
      invariant 0 <= i <= |incoming|
      invariant nodeStore.versions == old(nodeStore.versions) + Sequences.Filter(incoming[..i], (n: NodeVersion) => n.path !in existing)
    {
      var n := incoming[i];
      Sequences.FilterAppend(incoming[..i], [n], (m: NodeVersion) => m.path !in existing);
      assert incoming[..i + 1] == incoming[..i] + [n];
      if n.path !in existing {
        nodeStore.versions := nodeStore.versions + [n];
      }
      i := i + 1;
    }
    assert incoming[..i] == incoming;
  }

  /** `loadData`. `content` is the result of reading the file and `parsed`
      the result of parsing it (None when parsing fails). */
  method LoadData(content: Result<string, string>, parsed: Option<Data>,
                  projectStore: ProjectStore.ProjectStore, settingsStore: SettingsStore,
                  nodeStore: NodeStore.NodeStore)
    modifies projectStore`projects, settingsStore`settings, nodeStore`versions
    ensures content.Err? || content.value == "" || parsed.None? ==>
              && projectStore.projects == old(projectStore.projects)
              && settingsStore.settings == old(settingsStore.settings)
              && nodeStore.versions == old(nodeStore.versions)
    ensures content.Ok? && content.value != "" && parsed.Some? ==>
              var d := parsed.value;
              && projectStore.projects == (if d.projects.Some? then d.projects.value else old(projectStore.projects))
              && settingsStore.settings == (if d.settings.Some? then d.settings.value else old(settingsStore.settings))
              && nodeStore.versions == (if d.customNodes.Some? then Merged(old(nodeStore.versions), d.customNodes.value)
                                        else old(nodeStore.versions))
  {
    if content.Err? || content.value == "" || parsed.None? {
      return;
    }
    var data := parsed.value;
    if data.projects.Some? {
      projectStore.projects := data.projects.value;
    }
    if data.settings.Some? {
      settingsStore.settings := data.settings.value;
    }
    if data.customNodes.Some? {
      MergeCustomNodes(nodeStore, data.customNodes.value);
    }
  }
}
