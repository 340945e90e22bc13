/** The uTools plugin's back end (utools/preload.js): the table of live runs
    keyed by run id, the shell command of a run, the output and exit
    subscriptions, the listing of nvm installations and the mapping of the
    file-dialog options. Spawning, `fs.statSync`, `fs.existsSync`,
    `fs.readdirSync`, `path.dirname` and the dialog's answer are inputs; what
    is spawned, killed and delivered to the subscribers is recorded in
    sequences. */
module PreloadRunner {
  import opened Wrappers
  import opened Text
  import opened Types
  import TauriRunner

  datatype Platform = Win32 | Posix

  /** `path.join` of one relative part on POSIX: a '/' is inserted unless the
      base is empty or already ends in one. */
  function PosixJoin(base: string, part: string): (r: string)
    ensures StartsWith(r, base) && EndsWith(r, part)
    ensures |r| == |base| + |part| || (|r| == |base| + 1 + |part| && r[|base|] == '/')
  {
    if base == [] || base[|base| - 1] == '/' then
      assert (base + part)[..|base|] == base;
      base + part
    else
      assert (base + "/" + part)[..|base|] == base;
      base + "/" + part
  }

  /** `path.join` of one relative part on Windows: a backslash is inserted unless
      the base is empty or already ends in a separator. Unlike Rust's
      `Path::join`, a bare drive such as "C:" gets one too. */
  function Win32Join(base: string, part: string): (r: string)
    ensures StartsWith(r, base) && EndsWith(r, part)
    ensures base == [] || TauriRunner.IsSeparator(base[|base| - 1]) ==> r == base + part
    ensures base != [] && !TauriRunner.IsSeparator(base[|base| - 1]) ==>
              |r| == |base| + 1 + |part| && r[|base|] == '\\'
  {
    if base == [] || TauriRunner.IsSeparator(base[|base| - 1]) then
      assert (base + part)[..|base|] == base;
      base + part
    else
      assert (base + "\\" + part)[..|base|] == base;
      base + "\\" + part
  }

  /** `path.join` of one relative part on the running platform. */
  function Join(platform: Platform, base: string, part: string): (r: string)
    ensures StartsWith(r, base) && EndsWith(r, part)
  {
    if platform == Win32 then Win32Join(base, part) else PosixJoin(base, part)
  }

  // -----------------------------------------------------------------------
  // The command of a run

  /** What `fs.statSync(nodePath)` tells: it throws, or the path is a regular
      file, or it is something else (a directory). */
  datatype Stat = StatThrows | IsFile | NotFile

  /** The directory put in front of PATH. `parent` is `path.dirname(nodePath)`
      and `binExists` whether `<nodePath>/bin` exists. A regular file gives
      its directory. On POSIX a directory with a `bin` child gives that child;
      on Windows there is no `bin` lookup. Anything else keeps the path. */
  function NodeDir(platform: Platform, nodePath: string, stat: Stat, parent: string, binExists: bool): (dir: string)
    ensures stat == IsFile ==> dir == parent
    ensures stat == StatThrows ==> dir == nodePath
    ensures platform == Win32 && stat != IsFile ==> dir == nodePath
    ensures platform == Posix && stat == NotFile ==>
              dir == (if binExists then PosixJoin(nodePath, "bin") else nodePath)
  {
    if stat == IsFile then parent
    else if platform == Posix && stat == NotFile && binExists then PosixJoin(nodePath, "bin")
    else nodePath
  }

  /** On Windows the answer never depends on a `bin` child. */
  lemma WindowsIgnoresBin(nodePath: string, stat: Stat, parent: string)
    ensures NodeDir(Win32, nodePath, stat, parent, true) == NodeDir(Win32, nodePath, stat, parent, false)
  {
  }

  /** On POSIX an installation root with a `bin` child resolves to a path
      under that root ending in "/bin". */
  lemma PosixRootResolvesToBin(nodePath: string, parent: string)
    requires nodePath != "" && nodePath[|nodePath| - 1] != '/'
    ensures var dir := NodeDir(Posix, nodePath, NotFile, parent, true);
      StartsWith(dir, nodePath + "/") && EndsWith(dir, "/bin")
  {
    var dir := NodeDir(Posix, nodePath, NotFile, parent, true);
    var head := nodePath + "/";
    var tail := "/bin";
    assert dir == head + "bin";
    assert dir == nodePath + tail;
    assert dir[..|head|] == head;
    assert dir[|nodePath|..] == tail;
  }

  /** The clause that puts `dir` in front of PATH for the rest of the shell
      line. */
  function PathClause(platform: Platform, dir: string): string {
    if platform == Win32 then ("set \"PATH=" + dir + ";") + "%PATH%\" && "
    else ("export PATH=\"" + dir + ":") + "$PATH\" && "
  }

  /** The shell command of a run: the PATH clause when a Node path is given,
      then `<pm> run <script>`. */
  function CmdStr(platform: Platform, nodePath: string, pm: string, script: string,
                  stat: Stat, parent: string, binExists: bool): (cmd: string)
    ensures EndsWith(cmd, pm + " run " + script)
    ensures nodePath == "" ==> cmd == pm + " run " + script
  {
    var run := pm + " run " + script;
    if nodePath != "" then
      var c := PathClause(platform, NodeDir(platform, nodePath, stat, parent, binExists)) + run;
      assert c[|c| - |run|..] == run;
      c
    else run
  }

  /** With a Node path, the command first puts the resolved directory in front
      of PATH, with the platform's separator and syntax, and then runs the
      script. */
  lemma CmdStrPrefixesPath(platform: Platform, nodePath: string, pm: string, script: string,
                           stat: Stat, parent: string, binExists: bool)
    requires nodePath != ""
    ensures var dir := NodeDir(platform, nodePath, stat, parent, binExists);
      var cmd := CmdStr(platform, nodePath, pm, script, stat, parent, binExists);
      && (platform == Win32 ==> StartsWith(cmd, "set \"PATH=" + dir + ";"))
      && (platform == Posix ==> StartsWith(cmd, "export PATH=\"" + dir + ":"))
      && |cmd| == |PathClause(platform, dir)| + |pm + " run " + script|
      && cmd == PathClause(platform, dir) + (pm + " run " + script)
      && (platform == Win32 ==> EndsWith(PathClause(platform, dir), "%PATH%\" && "))
      && (platform == Posix ==> EndsWith(PathClause(platform, dir), "$PATH\" && "))
  {
    var dir := NodeDir(platform, nodePath, stat, parent, binExists);
    var clause := PathClause(platform, dir);
    var run := pm + " run " + script;
    assert CmdStr(platform, nodePath, pm, script, stat, parent, binExists) == clause + run;
    PathClauseStarts(platform, dir);
    var head := if platform == Win32 then "set \"PATH=" + dir + ";" else "export PATH=\"" + dir + ":";
    PrefixExtends(clause, head, run);
  }

  lemma PathClauseStarts(platform: Platform, dir: string)
    ensures platform == Win32 ==> StartsWith(PathClause(platform, dir), "set \"PATH=" + dir + ";")
    ensures platform == Posix ==> StartsWith(PathClause(platform, dir), "export PATH=\"" + dir + ":")
    ensures platform == Win32 ==> EndsWith(PathClause(platform, dir), "%PATH%\" && ")
    ensures platform == Posix ==> EndsWith(PathClause(platform, dir), "$PATH\" && ")
  {
    if platform == Win32 {
      PrefixOfConcat("set \"PATH=" + dir + ";", "%PATH%\" && ");
      SuffixOfConcat("set \"PATH=" + dir + ";", "%PATH%\" && ");
    } else {
      PrefixOfConcat("export PATH=\"" + dir + ":", "$PATH\" && ");
      SuffixOfConcat("export PATH=\"" + dir + ":", "$PATH\" && ");
    }
  }

  lemma PrefixExtends(s: string, prefix: string, t: string)
    requires StartsWith(s, prefix)
    ensures StartsWith(s + t, prefix)
  {
    assert (s + t)[..|prefix|] == s[..|prefix|];
  }

  lemma SuffixOfConcat(a: string, b: string)
    ensures EndsWith(a + b, b)
  {
    assert (a + b)[|a|..] == b;
  }

  lemma PrefixOfConcat(a: string, b: string)
    ensures StartsWith(a + b, a)
  {
    assert (a + b)[..|a|] == a;
  }

  // -----------------------------------------------------------------------
  // The run table

  const ALREADY_RUNNING := "Already running"

  /** A call of a subscriber: `callback` names the registered function. */
  datatype Delivery = OutputTo(callback: nat, id: string, data: string) | ExitTo(callback: nat, id: string)

  /** A shell command spawned in a working directory, with the inherited
      environment. */
  datatype Spawn = Spawn(cmd: string, cwd: string)

  class Supervisor {
    /** Live runs: run id to child process. */
    var processes: map<string, nat>
    var outputCallback: Option<nat>
    var exitCallback: Option<nat>
    var delivered: seq<Delivery>
    var spawns: seq<Spawn>
    /** The children `kill` was called on, in order. */
    var kills: seq<nat>

    constructor ()
      ensures processes == map[] && outputCallback == None && exitCallback == None
      ensures delivered == [] && spawns == [] && kills == []
    {
      processes := map[];
      outputCallback := None;
      exitCallback := None;
      delivered := [];
      spawns := [];
      kills := [];
    }

    /** `runProjectCommand`: a second start of a live id is refused;
        otherwise the command is spawned. `child` is what `spawn` gave: the
        child process, entered under `id`, or the error it threw, which
        rejects the call and leaves the table as it was. */
    method RunProjectCommand(id: string, projectPath: string, script: string, packageManager: string,
                             nodePath: string, platform: Platform, stat: Stat, parent: string,
                             binExists: bool, child: Result<nat, string>)
      returns (r: Outcome<string>)
      modifies this`processes, this`spawns
      ensures id in old(processes) ==>
                r == Fail(ALREADY_RUNNING) && processes == old(processes) && spawns == old(spawns)
      ensures id !in old(processes) ==>
                spawns == old(spawns) + [Spawn(CmdStr(platform, nodePath, packageManager, script, stat, parent, binExists), projectPath)]
      ensures id !in old(processes) && child.Ok? ==> r == Pass && processes == old(processes)[id := child.value]
      ensures id !in old(processes) && child.Err? ==> r == Fail(child.error) && processes == old(processes)
    {
      if id in processes {
        return Fail(ALREADY_RUNNING);
      }
      var cmd := CmdStr(platform, nodePath, packageManager, script, stat, parent, binExists);
      spawns := spawns + [Spawn(cmd, projectPath)];
      if child.Err? {
        return Fail(child.error);
      }
      processes := processes[id := child.value];
      return Pass;
    }

    /** A chunk on the child's stdout or stderr: passed on unchanged when an
        output subscriber is registered, dropped otherwise. */
    method OnChildData(id: string, data: string)
      modifies this`delivered
      ensures outputCallback.Some? ==> delivered == old(delivered) + [OutputTo(outputCallback.value, id, data)]
      ensures outputCallback.None? ==> delivered == old(delivered)
    {
      if outputCallback.Some? {
        delivered := delivered + [OutputTo(outputCallback.value, id, data)];
      }
    }

    /** The child's exit: the id leaves the table, then the exit subscriber,
        if any, is told. */
    method OnChildExit(id: string)
      modifies this`processes, this`delivered
      ensures processes == old(processes) - {id}
      ensures exitCallback.Some? ==> delivered == old(delivered) + [ExitTo(exitCallback.value, id)]
      ensures exitCallback.None? ==> delivered == old(delivered)
    {
      processes := processes - {id};
      if exitCallback.Some? {
        delivered := delivered + [ExitTo(exitCallback.value, id)];
      }
    }

    /** The exit handler as it was evidently meant: the exit of `child` is
        ignored when a newer child has taken its id since; otherwise it acts
        as `OnChildExit`. */
    method OnChildExitOf(id: string, child: nat)
      modifies this`processes, this`delivered
      ensures id in old(processes) && old(processes)[id] != child ==>
                processes == old(processes) && delivered == old(delivered)
      ensures !(id in old(processes) && old(processes)[id] != child) ==>
                processes == old(processes) - {id}
                && delivered == old(delivered) + (if exitCallback.Some? then [ExitTo(exitCallback.value, id)] else [])
      ensures forall other :: other in old(processes) && old(processes)[other] != child ==>
                other in processes && processes[other] == old(processes)[other]
    {
      if id in processes && processes[id] != child {
        return;
      }
      processes := processes - {id};
      if exitCallback.Some? {
        delivered := delivered + [ExitTo(exitCallback.value, id)];
      }
    }

    /** `stopProjectCommand`: a live child is killed and leaves the table at
        once; an unknown id is ignored. */
    method StopProjectCommand(id: string)
      modifies this`processes, this`kills
      ensures id in old(processes) ==>
                kills == old(kills) + [old(processes)[id]] && processes == old(processes) - {id}
      ensures id !in old(processes) ==> kills == old(kills) && processes == old(processes)
    {
      if id in processes {
        kills := kills + [processes[id]];
        processes := processes - {id};
      }
    }

    /** `onProjectOutput`: the new subscriber replaces the previous one. */
    method OnProjectOutput(callback: nat)
      modifies this`outputCallback
      ensures outputCallback == Some(callback)
    {
      outputCallback := Some(callback);
    }

    /** The function `onProjectOutput` returns: it clears the slot, whoever
        holds it by then. */
    method UnsubscribeOutput()
      modifies this`outputCallback
      ensures outputCallback == None
    {
      outputCallback := None;
    }

    /** `onProjectExit`: the new subscriber replaces the previous one. */
    method OnProjectExit(callback: nat)
      modifies this`exitCallback
      ensures exitCallback == Some(callback)
    {
      exitCallback := Some(callback);
    }

    /** The function `onProjectExit` returns: it clears the slot. */
    method UnsubscribeExit()
      modifies this`exitCallback
      ensures exitCallback == None
    {
      exitCallback := None;
    }

    /** The plugin-out handler: every live child is killed, a failing kill
        does not stop the others, and the table is emptied. */
    method OnPluginOut()
      modifies this`processes, this`kills
      ensures processes == map[]
      ensures |kills| == |old(kills)| + |old(processes)|
      ensures kills[..|old(kills)|] == old(kills)
      ensures forall id :: id in old(processes) ==> old(processes)[id] in kills[|old(kills)|..]
      ensures forall j :: |old(kills)| <= j < |kills| ==> kills[j] in old(processes).Values
    {
      var pending := processes.Keys;
      ghost var done: set<string> := {};
      while pending != {}
        invariant processes == old(processes)
        invariant pending + done == old(processes).Keys && pending !! done
        invariant |kills| == |old(kills)| + |done|
        invariant kills[..|old(kills)|] == old(kills)
        invariant forall id :: id in done ==> old(processes)[id] in kills[|old(kills)|..]
        invariant forall j :: |old(kills)| <= j < |kills| ==> kills[j] in old(processes).Values
        decreases pending
      {
        var id :| id in pending;
        ghost var before := kills;
        kills := kills + [processes[id]];
        assert kills[|old(kills)|..] == before[|old(kills)|..] + [processes[id]];
        pending := pending - {id};
        done := done + {id};
      }
      assert done == old(processes).Keys;
      processes := map[];
    }
  }

  /** Stop a run, restart it under the same id, and let the stopped child's
      exit arrive late: as written, the handler drops the new child from the
      table although it was never killed, so it can no longer be stopped. */
  method StaleExitDropsRestart() returns (s: Supervisor)
    ensures "app:dev" !in s.processes
    ensures s.kills == [1]
  {
    s := new Supervisor();
    var r := s.RunProjectCommand("app:dev", "/app", "dev", "npm", "", Posix, NotFile, "", false, Ok(1));
    s.StopProjectCommand("app:dev");
    r := s.RunProjectCommand("app:dev", "/app", "dev", "npm", "", Posix, NotFile, "", false, Ok(2));
    s.OnChildExit("app:dev");
  }

  /** The same events with the exit handled by `OnChildExitOf`: the restarted
      child stays in the table. */
  method StaleExitKeepsRestart() returns (s: Supervisor)
    ensures s.processes == map["app:dev" := 2]
    ensures s.kills == [1]
  {
    s := new Supervisor();
    var r := s.RunProjectCommand("app:dev", "/app", "dev", "npm", "", Posix, NotFile, "", false, Ok(1));
    s.StopProjectCommand("app:dev");
    r := s.RunProjectCommand("app:dev", "/app", "dev", "npm", "", Posix, NotFile, "", false, Ok(2));
    s.OnChildExitOf("app:dev", 1);
  }

  // -----------------------------------------------------------------------
  // Listing nvm installations

  /** The directory whose entries are listed, or None when there is none:
      NVM_HOME on Windows (unset or empty gives none); on POSIX
      `<NVM_DIR or HOME/.nvm>/versions/node`. */
  function NvmBase(platform: Platform, nvmHome: Option<string>, home: string, nvmDir: Option<string>): (base: Option<string>)
    ensures platform == Win32 ==> (base.Some? <==> nvmHome.Some? && nvmHome.value != "")
    ensures platform == Win32 && base.Some? ==> base.value == nvmHome.value
    ensures platform == Posix ==> base.Some? && EndsWith(base.value, "node")
    ensures platform == Posix ==>
              StartsWith(base.value, if nvmDir.Some? && nvmDir.value != "" then nvmDir.value else home)
    ensures platform == Posix ==>
              var root := if nvmDir.Some? && nvmDir.value != "" then nvmDir.value else PosixJoin(home, ".nvm");
              base == Some(PosixJoin(PosixJoin(root, "versions"), "node"))
  {
    if platform == Win32 then
      if nvmHome.Some? && nvmHome.value != "" then Some(nvmHome.value) else None
    else
      var root := if nvmDir.Some? && nvmDir.value != "" then nvmDir.value else PosixJoin(home, ".nvm");
      var versions := PosixJoin(root, "versions");
      var r := PosixJoin(versions, "node");
      assert r[..|root|] == versions[..|root|];
      Some(r)
  }

  /** The entries listed from `base`: every listed name (`readdirSync` lists
      files as well as directories) starting with "v", in listing order, as an
      nvm entry at `<base>/<name>`. */
  function NvmEntries(platform: Platform, base: string, dirs: seq<string>): (r: seq<NodeVersion>)
    ensures |r| <= |dirs|
  {
    if dirs == [] then []
    else
      var front := NvmEntries(platform, base, dirs[..|dirs| - 1]);
      var dir := dirs[|dirs| - 1];
      if StartsWith(dir, "v") then front + [NodeVersion(dir, Join(platform, base, dir), Nvm)] else front
  }

  /** An entry is listed exactly when its name is a listed name starting with
      "v"; it is an nvm entry whose path is that name joined to the base. */
  lemma {:induction false} NvmEntriesMembers(platform: Platform, base: string, dirs: seq<string>, v: NodeVersion)
    ensures v in NvmEntries(platform, base, dirs) <==>
              v.version in dirs && StartsWith(v.version, "v") && v.source == Nvm && v.path == Join(platform, base, v.version)
  {
    if dirs != [] {
      var front := dirs[..|dirs| - 1];
      NvmEntriesMembers(platform, base, front, v);
      assert dirs == front + [dirs[|dirs| - 1]];
    }
  }

  /** `getNvmList`. `listing` is what reading the base directory gave,
      `versionsDirExists` whether the POSIX base exists. Every failure gives
      an empty list. */
  method GetNvmList(platform: Platform, nvmHome: Option<string>, home: string, nvmDir: Option<string>,
                    versionsDirExists: bool, listing: Result<seq<string>, string>)
    returns (versions: seq<NodeVersion>)
    ensures var base := NvmBase(platform, nvmHome, home, nvmDir);
      versions == if base.None? || (platform == Posix && !versionsDirExists) || listing.Err? then []
                  else NvmEntries(platform, base.value, listing.value)
  {
    var base := NvmBase(platform, nvmHome, home, nvmDir);
    if base.None? {
      return [];
    }
    if platform == Posix && !versionsDirExists {
      return [];
    }
    if listing.Err? {
      return [];
    }
    versions := ListEntries(platform, base.value, listing.value);
  }

  /** The loop of `getNvmList` over the listed names. */
  method ListEntries(platform: Platform, base: string, dirs: seq<string>) returns (versions: seq<NodeVersion>)
    ensures versions == NvmEntries(platform, base, dirs)
  {
    versions := [];
    var i := 0;
    while i < |dirs|
      invariant 0 <= i <= |dirs|
      invariant versions == NvmEntries(platform, base, dirs[..i])
    {
      var dir := dirs[i];
      assert dirs[..i + 1][..i] == dirs[..i];
      if StartsWith(dir, "v") {
        versions := versions + [NodeVersion(dir, Join(platform, base, dir), Nvm)];
      }
      i := i + 1;
    }
    assert dirs[..i] == dirs;
  }

  // -----------------------------------------------------------------------
  // The file dialog

  datatype DialogFilter = DialogFilter(name: string, extensions: seq<string>)

  /** The caller's options; an absent or falsy option is false or None. */
  datatype DialogOptions = DialogOptions(directory: bool, multiple: bool,
                                         defaultPath: Option<string>, filters: Option<seq<DialogFilter>>)

  /** The options handed to the host's open dialog. */
  datatype HostOptions = HostOptions(properties: seq<string>, defaultPath: Option<string>,
                                     filters: Option<seq<DialogFilter>>)

  /** The mapping of `openDialog`'s options: a directory or a file picker,
      multi-selection on request, an empty default path dropped. */
  function HostOptionsOf(o: DialogOptions): (h: HostOptions)
    ensures "openDirectory" in h.properties <==> o.directory
    ensures "openFile" in h.properties <==> !o.directory
    ensures "multiSelections" in h.properties <==> o.multiple
    ensures |h.properties| == (if o.multiple then 2 else 1)
    ensures h.defaultPath.Some? <==> o.defaultPath.Some? && o.defaultPath.value != ""
    ensures h.defaultPath.Some? ==> h.defaultPath == o.defaultPath
    ensures h.filters == o.filters
  {
    var kind := if o.directory then "openDirectory" else "openFile";
    var props := [kind] + (if o.multiple then ["multiSelections"] else []);
    HostOptions(props, if o.defaultPath.Some? && o.defaultPath.value != "" then o.defaultPath else None, o.filters)
  }

  /** What `openDialog` resolves to. */
  datatype Picked = NoSelection | One(path: string) | Many(paths: seq<string>)

  /** The dialog's answer (None when it was dismissed) as `openDialog`
      returns it: every path when several were allowed, else the first one. */
  function DialogResult(o: DialogOptions, shown: Option<seq<string>>): (p: Picked)
    ensures shown.None? ==> p == NoSelection
    ensures shown.Some? && o.multiple ==> p == Many(shown.value)
    ensures p.One? <==> shown.Some? && !o.multiple && shown.value != []
    ensures p.One? ==> p.path == shown.value[0]
  {
    if shown.None? then NoSelection
    else if o.multiple then Many(shown.value)
    else if shown.value == [] then NoSelection
    else One(shown.value[0])
  }
}
