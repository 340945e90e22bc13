/** The desktop back end's script runner (src-tauri/src/runner.rs), which
    builds only on Windows: the table of live runs, the command line and
    environment of a run, the forwarding of its output to the UI and its log
    file, the exit watcher, stopping, and opening an editor. Spawning, the
    clock, the log directory and file-existence checks are inputs; events,
    log lines, spawned commands and kill commands are recorded in sequences. */
module TauriRunner {
  import opened Wrappers
  import opened Text

  // -----------------------------------------------------------------------
  // Windows paths

  predicate IsSeparator(c: char) { c == '\\' || c == '/' }

  /** A bare drive prefix such as "C:". */
  predicate IsDrive(p: string) {
    |p| == 2 && p[1] == ':' && ('A' <= p[0] <= 'Z' || 'a' <= p[0] <= 'z')
  }

  /** `Path::join` of a relative part on Windows: a '\' is inserted unless the
      base is empty, already ends in a separator, or is a bare drive. */
  function WinJoin(base: string, part: string): (r: string)
    ensures StartsWith(r, base) && EndsWith(r, part)
    ensures |r| == |base| + |part| || (|r| == |base| + 1 + |part| && r[|base|] == '\\')
  {
    if base == [] || IsSeparator(base[|base| - 1]) || IsDrive(base) then
      assert (base + part)[..|base|] == base;
      base + part
    else
      assert (base + "\\" + part)[..|base|] == base;
      base + "\\" + part
  }

  // -----------------------------------------------------------------------
  // The command line of a run

  /** The file-existence checks `pm_cmd` makes in the Node directory. */
  datatype PmFacts = PmFacts(npmCliExists: bool, pmCmdExists: bool)

  function NpmCli(nodePath: string): string {
    WinJoin(WinJoin(WinJoin(WinJoin(nodePath, "node_modules"), "npm"), "bin"), "npm-cli.js")
  }

  function Quoted(s: string): string { "\"" + s + "\"" }

  /** `pm_cmd`: with a Node directory, npm's own entry script run by that
      directory's node.exe when present, else the directory's `<pm>.cmd` when
      present, else the bare manager name; without one, npm, pnpm and yarn
      get the `.cmd` suffix. */
  function PmCmd(nodePath: string, pm: string, facts: PmFacts): (cmd: string)
    ensures nodePath == "" ==> (cmd == pm + ".cmd" <==> pm in {"npm", "pnpm", "yarn"})
    ensures nodePath == "" ==> cmd == pm || cmd == pm + ".cmd"
    ensures nodePath != "" && facts.npmCliExists ==> EndsWith(cmd, Quoted(NpmCli(nodePath)))
    ensures nodePath != "" && facts.npmCliExists ==>
              cmd == Quoted(WinJoin(nodePath, "node.exe")) + " " + Quoted(NpmCli(nodePath))
    ensures nodePath != "" && !facts.npmCliExists && facts.pmCmdExists ==> cmd == Quoted(WinJoin(nodePath, pm + ".cmd"))
    ensures nodePath != "" && !facts.npmCliExists && !facts.pmCmdExists ==> cmd == pm
  {
    if nodePath != "" then
      if facts.npmCliExists then
        var c := Quoted(WinJoin(nodePath, "node.exe")) + " " + Quoted(NpmCli(nodePath));
        assert c == (Quoted(WinJoin(nodePath, "node.exe")) + " ") + Quoted(NpmCli(nodePath));
        c
      else if facts.pmCmdExists then Quoted(WinJoin(nodePath, pm + ".cmd"))
      else pm
    else if pm == "npm" || pm == "pnpm" || pm == "yarn" then pm + ".cmd"
    else
      assert |pm + ".cmd"| != |pm|;
      pm
  }

  /** Once a Node directory holds npm's entry script, the chosen package
      manager no longer matters: yarn and pnpm projects run through npm. */
  lemma NpmCliOverridesManager(nodePath: string, pm1: string, pm2: string, facts: PmFacts)
    requires nodePath != "" && facts.npmCliExists
    ensures PmCmd(nodePath, pm1, facts) == PmCmd(nodePath, pm2, facts)
  {
  }

  /** `node_executable`. */
  function NodeExecutable(nodePath: string): (exe: string)
    ensures nodePath == "" <==> exe == "node"
    ensures nodePath != "" ==> exe == Quoted(WinJoin(nodePath, "node.exe"))
  {
    if nodePath != "" then
      assert Quoted(WinJoin(nodePath, "node.exe"))[0] == '"';
      Quoted(WinJoin(nodePath, "node.exe"))
    else "node"
  }

  /** The `format!` of `full_cmd`: it splits into the version check, the
      manager command and the script run. */
  function CommandLine(exe: string, cmd: string, script: string): (full: string)
    ensures |full| == |exe + " -v && "| + |cmd| + |" run " + script|
    ensures StartsWith(full, exe + " -v && ")
    ensures EndsWith(full, " run " + script)
    ensures full[|exe + " -v && "|..|full| - |" run " + script|] == cmd
  {
    ThreeParts(exe + " -v && ", cmd, " run " + script);
    (exe + " -v && ") + (cmd + (" run " + script))
  }

  /** `full_cmd`: the Node version is printed before the script runs. */
  function FullCmd(nodePath: string, pm: string, script: string, facts: PmFacts): string {
    CommandLine(NodeExecutable(nodePath), PmCmd(nodePath, pm, facts), script)
  }

  /** The raw argument handed to `cmd`: the whole command quoted after /C. */
  function RawArg(full: string): (arg: string)
    ensures |arg| == |full| + 6
    ensures StartsWith(arg, " /C \"") && EndsWith(arg, "\"")
    ensures arg[|" /C \""|..|arg| - 1] == full
  {
    var arg := " /C " + Quoted(full);
    assert arg == " /C \"" + full + "\"";
    assert arg[..5] == " /C \"";
    assert arg[5..|arg| - 1] == full;
    arg
  }

  /** The child's PATH: the Node directory first when one is given; an unset
      PATH reads as empty. */
  function NewPath(nodePath: string, current: Option<string>): (path: string)
    ensures nodePath != "" ==> StartsWith(path, nodePath + ";")
    ensures nodePath != "" ==> path[|nodePath| + 1..] == (if current.Some? then current.value else "")
    ensures nodePath == "" ==> path == (if current.Some? then current.value else "")
  {
    var cur := if current.Some? then current.value else "";
    if nodePath != "" then
      assert (nodePath + ";" + cur)[..|nodePath| + 1] == nodePath + ";";
      assert (nodePath + ";" + cur)[|nodePath| + 1..] == cur;
      nodePath + ";" + cur
    else cur
  }

  /** `use_legacy_provider`: no sign of Node 10, 12, 14 or 16 in the path. */
  predicate UseLegacyProvider(nodePath: string) {
    !Contains(nodePath, "v14.") && !Contains(nodePath, "v16.") && !Contains(nodePath, "v12.") && !Contains(nodePath, "v10.")
  }

  /** An nvm directory of Node 10, 12, 14 or 16 turns the option off. */
  lemma LegacyOffForOldNvmDirs(prefix: string, major: string, rest: string)
    requires major in {"10", "12", "14", "16"}
    ensures !UseLegacyProvider(prefix + "v" + major + "." + rest)
  {
    var p := prefix + "v" + major + "." + rest;
    var marker := "v" + major + ".";
    assert p == prefix + marker + rest;
    assert OccursAt(p, marker, |prefix|) by {
      assert p[|prefix|..|prefix| + 4] == marker;
    }
    assert Contains(p, marker);
    if major == "10" {
      assert marker == "v10.";
    } else if major == "12" {
      assert marker == "v12.";
    } else if major == "14" {
      assert marker == "v14.";
    } else {
      assert marker == "v16.";
    }
  }

  /** A path holding no 'v' holds no marker starting with 'v'. */
  lemma NoMarkerWithoutV(s: string, marker: string)
    requires 'v' !in s && |marker| >= 1 && marker[0] == 'v'
    ensures !Contains(s, marker)
  {
    forall i | 0 <= i <= |s| - |marker| ensures !OccursAt(s, marker, i) {
      assert s[i..i + |marker|][0] == s[i];
    }
  }

  /** A path without any 'v', the empty path (the system Node) among them,
      turns the option on. */
  lemma LegacyOnWithoutV(nodePath: string)
    requires 'v' !in nodePath
    ensures UseLegacyProvider(nodePath)
  {
    NoMarkerWithoutV(nodePath, "v10.");
    NoMarkerWithoutV(nodePath, "v12.");
    NoMarkerWithoutV(nodePath, "v14.");
    NoMarkerWithoutV(nodePath, "v16.");
  }

  const NODE_OPTIONS := "NODE_OPTIONS"
  const LEGACY_FLAG := "--openssl-legacy-provider"

  /** The environment of the child: PATH replaced, SASS_BINARY_PATH removed,
      NODE_OPTIONS set to the legacy flag or removed. */
  function ChildEnv(env: map<string, string>, nodePath: string): (r: map<string, string>)
    ensures "PATH" in r && r["PATH"] == NewPath(nodePath, if "PATH" in env then Some(env["PATH"]) else None)
    ensures "SASS_BINARY_PATH" !in r
    ensures NODE_OPTIONS in r <==> UseLegacyProvider(nodePath)
    ensures NODE_OPTIONS in r ==> r[NODE_OPTIONS] == LEGACY_FLAG
    ensures forall k :: k != "PATH" && k != "SASS_BINARY_PATH" && k != NODE_OPTIONS ==>
              (k in r <==> k in env) && (k in r ==> r[k] == env[k])
  {
    var withPath := env["PATH" := NewPath(nodePath, if "PATH" in env then Some(env["PATH"]) else None)];
    var withoutSass := withPath - {"SASS_BINARY_PATH"};
    if UseLegacyProvider(nodePath) then withoutSass[NODE_OPTIONS := LEGACY_FLAG]
    else withoutSass - {NODE_OPTIONS}
  }

  // -----------------------------------------------------------------------
  // Output forwarding

  datatype Stream = Stdout | Stderr

  /** What the UI receives: a line of output, or the end of a run. */
  datatype Event = Output(id: string, stream: Stream, data: string) | Exit(id: string)

  /** A command handed to the OS: program, raw argument, working directory,
      environment. */
  datatype Launch = Launch(program: string, rawArg: string, cwd: string, env: map<string, string>)

  /** The log-file copy of a forwarded line: stderr lines are marked. */
  function LogLine(stream: Stream, line: string): string {
    if stream == Stderr then "ERR: " + line else line
  }

  /** The events the reader thread of one stream emits for the first `n`
      lines read. */
  function StreamEvents(id: string, stream: Stream, chunks: seq<string>, n: nat): (evs: seq<Event>)
    requires n <= |chunks|
    ensures |evs| == n
  {
    if n == 0 then []
    else StreamEvents(id, stream, chunks, n - 1) + [Output(id, stream, TrimEnd(chunks[n - 1]))]
  }

  /** One line written to a log file. */
  datatype LogWrite = LogWrite(file: string, line: string)

  /** The lines the reader thread of one stream writes to the log file for
      the first `n` lines read. */
  function StreamLogWrites(logFile: string, stream: Stream, chunks: seq<string>, n: nat): (writes: seq<LogWrite>)
    requires n <= |chunks|
    ensures |writes| == n
  {
    if n == 0 then []
    else StreamLogWrites(logFile, stream, chunks, n - 1) + [LogWrite(logFile, LogLine(stream, TrimEnd(chunks[n - 1])))]
  }

  /** The i-th event and the i-th log line both come from the i-th chunk. */
  lemma {:induction false} StreamAt(id: string, logFile: string, stream: Stream, chunks: seq<string>, n: nat, i: nat)
    requires i < n <= |chunks|
    ensures StreamEvents(id, stream, chunks, n)[i] == Output(id, stream, TrimEnd(chunks[i]))
    ensures StreamLogWrites(logFile, stream, chunks, n)[i] == LogWrite(logFile, LogLine(stream, TrimEnd(chunks[i])))
  {
    if i < n - 1 {
      StreamAt(id, logFile, stream, chunks, n - 1, i);
    }
  }

  /** Every emitted line has no trailing whitespace, and its log copy is the
      same text, prefixed with "ERR: " exactly for stderr. */
  lemma ForwardedLinesAgree(id: string, logFile: string, stream: Stream, chunks: seq<string>, i: nat)
    requires i < |chunks|
    ensures var e := StreamEvents(id, stream, chunks, |chunks|)[i];
      && e.Output? && e.id == id && e.stream == stream
      && (e.data == [] || !IsSpace(e.data[|e.data| - 1]))
      && StreamLogWrites(logFile, stream, chunks, |chunks|)[i].line == (if stream == Stderr then "ERR: " else "") + e.data
  {
    StreamAt(id, logFile, stream, chunks, |chunks|, i);
    TrimEndLast(chunks[i]);
    LogLineShape(stream, TrimEnd(chunks[i]));
  }

  lemma LogLineShape(stream: Stream, data: string)
    ensures LogLine(stream, data) == (if stream == Stderr then "ERR: " else "") + data
  {
    if stream != Stderr {
      assert "" + data == data;
    }
  }

  function LogFileName(id: string, timestamp: nat): (name: string)
    ensures |name| == |id| + 1 + |NatToString(timestamp)| + 4
    ensures StartsWith(name, id + "_") && EndsWith(name, ".log")
    ensures name[|id| + 1..|name| - 4] == NatToString(timestamp)
  {
    var stamp := NatToString(timestamp);
    var name := (id + "_") + (stamp + ".log");
    assert name[..|id| + 1] == id + "_";
    assert name[|name| - 4..] == ".log";
    assert name[|id| + 1..|name| - 4] == stamp;
    name
  }

  function TaskkillArgs(pid: nat): seq<string> {
    ["/PID", NatToString(pid), "/F", "/T"]
  }

  const ALREADY_RUNNING := "Project is already running"

  class ProcessState {
    /** Live runs: run id to process id. */
    var processes: map<string, nat>
    var events: seq<Event>
    /** Every line written to a log file, in order. */
    var logWrites: seq<LogWrite>
    var launches: seq<Launch>
    var taskkills: seq<seq<string>>

    constructor ()
      ensures processes == map[] && events == [] && logWrites == [] && launches == [] && taskkills == []
    {
      processes := map[];
      events := [];
      logWrites := [];
      launches := [];
      taskkills := [];
    }

    /** `run_project_command`. `env` is this process's environment, `facts`
        the file checks in the Node directory, `logDir` the log directory or
        the error met creating it or opening the log file, `timestamp` the
        clock in seconds, `spawned` the pid or the spawn error. On success the
        path of the log file the reader threads share is returned. */
    method RunProjectCommand(id: string, path: string, script: string, pm: string, nodePath: string,
                             env: map<string, string>, facts: PmFacts, logDir: Result<string, string>,
                             timestamp: nat, spawned: Result<nat, string>)
      returns (r: Result<string, string>)
      modifies this`processes, this`events, this`logWrites, this`launches
      ensures id in old(processes) || logDir.Err? ==>
                && processes == old(processes) && events == old(events)
                && logWrites == old(logWrites) && launches == old(launches)
                && r == Err(if id in old(processes) then ALREADY_RUNNING else logDir.error)
      ensures id !in old(processes) && logDir.Ok? ==>
                var logFile := WinJoin(logDir.value, LogFileName(id, timestamp));
                var full := FullCmd(nodePath, pm, script, facts);
                && events == old(events) + [Output(id, Stdout, "Executing: " + full)]
                && logWrites == old(logWrites) + [LogWrite(logFile, "Executing: " + full)]
                && launches == old(launches) + [Launch("cmd", RawArg(full), path, ChildEnv(env, nodePath))]
                && (spawned.Err? ==> r == Err(spawned.error) && processes == old(processes))
                && (spawned.Ok? ==> r == Ok(logFile) && processes == old(processes)[id := spawned.value])
    {
      if id in processes {
        return Err(ALREADY_RUNNING);
      }
      if logDir.Err? {
        return Err(logDir.error);
      }
      var logFile := WinJoin(logDir.value, LogFileName(id, timestamp));
      var full := FullCmd(nodePath, pm, script, facts);
      r := Launched(id, path, full, logFile, ChildEnv(env, nodePath), spawned);
    }

    /** The part of `run_project_command` after the log file is open: the
        command line is emitted and logged, `cmd` is launched, and the pid
        is entered only when the spawn succeeds. */
    method Launched(id: string, path: string, full: string, logFile: string,
                    childEnv: map<string, string>, spawned: Result<nat, string>)
      returns (r: Result<string, string>)
      modifies this`processes, this`events, this`logWrites, this`launches
      ensures events == old(events) + [Output(id, Stdout, "Executing: " + full)]
      ensures logWrites == old(logWrites) + [LogWrite(logFile, "Executing: " + full)]
      ensures launches == old(launches) + [Launch("cmd", RawArg(full), path, childEnv)]
      ensures spawned.Err? ==> r == Err(spawned.error) && processes == old(processes)
      ensures spawned.Ok? ==> r == Ok(logFile) && processes == old(processes)[id := spawned.value]
    {
      events := events + [Output(id, Stdout, "Executing: " + full)];
      logWrites := logWrites + [LogWrite(logFile, "Executing: " + full)];
      launches := launches + [Launch("cmd", RawArg(full), path, childEnv)];
      if spawned.Err? {
        return Err(spawned.error);
      }
      processes := processes[id := spawned.value];
      return Ok(logFile);
    }

    /** One reader thread: every chunk read up to end of stream or a read
        error, trimmed at the end, emitted and written to the log file, in
        order. */
    method ForwardStream(id: string, stream: Stream, logFile: string, chunks: seq<string>)
      modifies this`events, this`logWrites
      ensures events == old(events) + StreamEvents(id, stream, chunks, |chunks|)
      ensures logWrites == old(logWrites) + StreamLogWrites(logFile, stream, chunks, |chunks|)
    {
      var i := 0;
      while i < |chunks|
        invariant 0 <= i <= |chunks|
        invariant events == old(events) + StreamEvents(id, stream, chunks, i)
        invariant logWrites == old(logWrites) + StreamLogWrites(logFile, stream, chunks, i)
      {
        var line := TrimEnd(chunks[i]);
        events := events + [Output(id, stream, line)];
        logWrites := logWrites + [LogWrite(logFile, LogLine(stream, line))];
        i := i + 1;
      }
    }

    /** The exit watcher: the run leaves the table, then the UI is told. */
    method OnExit(id: string)
      modifies this`processes, this`events
      ensures processes == old(processes) - {id}
      ensures events == old(events) + [Exit(id)]
    {
      processes := processes - {id};
      events := events + [Exit(id)];
    }

    /** `stop_project_command`: a tree kill of a live run; the entry stays
        until the exit watcher removes it. Always Ok. */
    method StopProjectCommand(id: string) returns (r: Outcome<string>)
      modifies this`taskkills
      ensures r == Pass
      ensures id in processes ==> taskkills == old(taskkills) + [TaskkillArgs(processes[id])]
      ensures id !in processes ==> taskkills == old(taskkills)
    {
      if id in processes {
        taskkills := taskkills + [TaskkillArgs(processes[id])];
      }
      return Pass;
    }
  }

  // -----------------------------------------------------------------------
  // Opening an editor

  predicate IsQuote(c: char) { c == '"' }

  /** The editor command of `open_in_editor`: surrounding whitespace, then
      surrounding quotes removed; "code" when nothing is left. */
  function EditorCommand(editor: string): (cmd: string)
    ensures cmd != ""
    ensures TrimMatches(Trim(editor), '"') == "" ==> cmd == "code"
    ensures cmd != "code" ==> cmd[0] != '"' && cmd[|cmd| - 1] != '"'
  {
    var e := TrimMatches(Trim(editor), '"');
    if e == "" then "code" else e
  }

  /** The arguments of `cmd` that open `path` in the editor. */
  function EditorArgs(path: string, editor: string): seq<string> {
    ["/C", "start", "", EditorCommand(editor), path]
  }

  /** Whitespace around a text that neither starts nor ends with whitespace
      is trimmed away exactly. */
  lemma TrimAroundSpaces(before: string, q: string, after: string)
    requires forall i :: 0 <= i < |before| ==> IsSpace(before[i])
    requires forall i :: 0 <= i < |after| ==> IsSpace(after[i])
    requires q != [] && !IsSpace(q[0]) && !IsSpace(q[|q| - 1])
    ensures Trim(before + q + after) == q
  {
    TrimEndByDroppedSuffix(before + q, after, IsSpace);
    assert TrimEndBy(before + q, IsSpace) == before + q;
    TrimStartByDroppedPrefix(before, q, IsSpace);
    assert TrimStartBy(q, IsSpace) == q;
  }

  /** One pair of surrounding quotes is removed from a text with no quote
      at either end. */
  lemma TrimMatchesQuoted(e: string)
    requires e != "" && e[0] != '"' && e[|e| - 1] != '"'
    ensures TrimMatches(Quoted(e), '"') == e
  {
    assert Quoted(e) == ['"'] + e + ['"'];
    TrimMatchesWrapped('"', e);
  }

  /** An editor path typed with quotes and stray spaces around it is used as
      the bare path. */
  lemma EditorCommandUnquotes(before: string, e: string, after: string)
    requires forall i :: 0 <= i < |before| ==> IsSpace(before[i])
    requires forall i :: 0 <= i < |after| ==> IsSpace(after[i])
    requires e != "" && e[0] != '"' && e[|e| - 1] != '"'
    ensures EditorCommand(before + Quoted(e) + after) == e
  {
    TrimAroundSpaces(before, Quoted(e), after);
    TrimMatchesQuoted(e);
  }

  /** An unquoted editor command with stray spaces around it, such as
      " subl ", is used as the bare command. */
  lemma EditorCommandTrims(before: string, e: string, after: string)
    requires forall i :: 0 <= i < |before| ==> IsSpace(before[i])
    requires forall i :: 0 <= i < |after| ==> IsSpace(after[i])
    requires e != "" && !IsSpace(e[0]) && !IsSpace(e[|e| - 1])
    requires e[0] != '"' && e[|e| - 1] != '"'
    ensures EditorCommand(before + e + after) == e
  {
    TrimAroundSpaces(before, e, after);
    assert TrimEndBy(e, x => x == '"') == e;
    assert TrimStartBy(e, x => x == '"') == e;
  }
}
