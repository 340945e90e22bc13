/** The front end's catalogue of Node installations (src/stores/node.ts): the
    system entry, the nvm entries fetched from the back end and the custom
    entries the user added, kept in one list that is sorted system first and
    then newest version first. Calls to the back end (listing, version
    probing, installing) are inputs: their outcome is a parameter. */
module NodeStore {
  import opened Wrappers
  import opened Text
  import opened Types
  import Sequences
  import Sorting

  // -----------------------------------------------------------------------
  // Version components as JavaScript reads them

  /** A component of `version.replace(/^v/, '').split('.').map(Number)`, or
      what indexing past its end yields. */
  datatype Part = Missing | Num(n: nat) | NaN

  /** JavaScript `Number` on a dot-free piece: a run of digits gives its value
      (the empty string gives 0); every other piece is modelled as NaN. */
  function JsNumber(piece: string): (p: Part)
    ensures p != Missing
    ensures piece == "" ==> p == Num(0)
    ensures AllDigits(piece) ==> p == Num(DecimalValue(piece))
    ensures !AllDigits(piece) ==> p == NaN
  {
    if AllDigits(piece) then Num(DecimalValue(piece)) else NaN
  }

  /** `replace(/^v/, '')`: at most one leading 'v' removed. */
  function StripLeadingV(version: string): string {
    if StartsWith(version, "v") then version[1..] else version
  }

  function JsParse(version: string): (parts: seq<Part>)
    ensures |parts| >= 1
    ensures forall i :: 0 <= i < |parts| ==> parts[i] != Missing
  {
    var pieces := Split(StripLeadingV(version), '.');
    seq(|pieces|, i requires 0 <= i < |pieces| => JsNumber(pieces[i]))
  }

  function PartAt(parts: seq<Part>, i: nat): Part {
    if i < |parts| then parts[i] else Missing
  }

  /** `x || 0`: undefined, NaN and 0 all read as 0. */
  function OrZero(p: Part): nat {
    match p
    case Num(n) => n
    case _ => 0
  }

  /** JavaScript `!==` on two components: NaN differs from everything. */
  predicate NotIdentical(p: Part, q: Part) {
    p.NaN? || q.NaN? || p != q
  }

  // -----------------------------------------------------------------------
  // The `sortVersions` comparator as written, and the corrected order

  function FirstDifferenceAsWritten(va: seq<Part>, vb: seq<Part>, i: nat): int
    decreases 3 - i
  {
    if i >= 3 then 0
    else if NotIdentical(PartAt(va, i), PartAt(vb, i)) then OrZero(PartAt(vb, i)) - OrZero(PartAt(va, i))
    else FirstDifferenceAsWritten(va, vb, i + 1)
  }

  /** The comparator passed to `versions.sort` (negative: `a` first). It stops
      at the first component that is `!==`, but then compares the components
      with `|| 0`, so a missing or NaN component against 0 ends the comparison
      with a tie. */
  function CompareAsWritten(a: NodeVersion, b: NodeVersion): (r: int)
    ensures a.source == System ==> r < 0
    ensures a.source != System && b.source == System ==> r > 0
  {
    if a.source == System then -1
    else if b.source == System then 1
    else FirstDifferenceAsWritten(JsParse(a.version), JsParse(b.version), 0)
  }

  /** The first three components, each missing or non-numeric one read as 0. */
  function VersionKey(version: string): (key: seq<nat>)
    ensures |key| == 3
    ensures var parts := JsParse(version);
      forall k :: 0 <= k < 3 ==> key[k] == (if k < |parts| && parts[k].Num? then parts[k].n else 0)
  {
    var p := JsParse(version);
    [OrZero(PartAt(p, 0)), OrZero(PartAt(p, 1)), OrZero(PartAt(p, 2))]
  }

  /** The corrected order: a system entry first, then the larger version
      first, comparing all three components with missing ones read as 0. */
  predicate Precedes(a: NodeVersion, b: NodeVersion) {
    if a.source == System then true
    else if b.source == System then false
    else Sorting.LexLe(VersionKey(b.version), VersionKey(a.version))
  }

  lemma PrecedesIsPreorder()
    ensures Sorting.TotalPreorder(Precedes)
  {
    forall a, b ensures Precedes(a, b) || Precedes(b, a) {
      Sorting.LexLeTotal(VersionKey(a.version), VersionKey(b.version));
    }
    forall a, b, c | Precedes(a, b) && Precedes(b, c) ensures Precedes(a, c) {
      if a.source != System {
        Sorting.LexLeTransitive(VersionKey(c.version), VersionKey(b.version), VersionKey(a.version));
      }
    }
  }

  /** The signed difference at the first position where two keys differ. */
  function KeyDiff(x: seq<nat>, y: seq<nat>): int
    requires |x| == |y|
  {
    if x == [] then 0
    else if x[0] != y[0] then y[0] - x[0]
    else KeyDiff(x[1..], y[1..])
  }

  /** The first difference decides the lexicographic order. */
  lemma {:induction false} KeyDiffSign(x: seq<nat>, y: seq<nat>)
    requires |x| == |y|
    ensures KeyDiff(x, y) < 0 <==> Sorting.LexLe(y, x) && !Sorting.LexLe(x, y)
    ensures KeyDiff(x, y) == 0 <==> Sorting.LexLe(x, y) && Sorting.LexLe(y, x)
  {
    if x != [] && x[0] == y[0] {
      KeyDiffSign(x[1..], y[1..]);
    }
  }

  function Keys(parts: seq<Part>): seq<nat> {
    [OrZero(PartAt(parts, 0)), OrZero(PartAt(parts, 1)), OrZero(PartAt(parts, 2))]
  }

  /** On numeric components the loop of the comparator computes `KeyDiff`. */
  lemma {:induction false} FirstDifferenceOnNumbers(va: seq<Part>, vb: seq<Part>, i: nat)
    requires i <= 3
    requires forall j :: i <= j < 3 ==> PartAt(va, j).Num? && PartAt(vb, j).Num?
    ensures FirstDifferenceAsWritten(va, vb, i) == KeyDiff(Keys(va)[i..], Keys(vb)[i..])
    decreases 3 - i
  {
    if i < 3 {
      FirstDifferenceOnNumbers(va, vb, i + 1);
      assert Keys(va)[i..][1..] == Keys(va)[i + 1..];
      assert Keys(vb)[i..][1..] == Keys(vb)[i + 1..];
    }
  }

  /** Where every version has three numeric components, the comparator as
      written and the corrected order agree. */
  lemma AsWrittenAgreesOnFullVersions(a: NodeVersion, b: NodeVersion)
    requires a.source != System && b.source != System
    requires forall i :: 0 <= i < 3 ==> PartAt(JsParse(a.version), i).Num? && PartAt(JsParse(b.version), i).Num?
    ensures CompareAsWritten(a, b) < 0 <==> Precedes(a, b) && !Precedes(b, a)
    ensures CompareAsWritten(a, b) == 0 <==> Precedes(a, b) && Precedes(b, a)
  {
    var va, vb := JsParse(a.version), JsParse(b.version);
    FirstDifferenceOnNumbers(va, vb, 0);
    assert Keys(va)[0..] == Keys(va) && Keys(vb)[0..] == Keys(vb);
    KeyDiffSign(Keys(va), Keys(vb));
  }

  /** A "v"-prefixed dotted label parses piece by piece. */
  lemma JsParseJoined(pieces: seq<string>)
    requires |pieces| >= 1
    requires forall i :: 0 <= i < |pieces| ==> '.' !in pieces[i]
    ensures JsParse("v" + Join(pieces, '.')) == seq(|pieces|, i requires 0 <= i < |pieces| => JsNumber(pieces[i]))
  {
    var joined := Join(pieces, '.');
    assert ("v" + joined)[1..] == joined;
    SplitJoin(pieces, '.');
  }

  /** Evaluation step of the counterexample below: the piece "18". */
  lemma DecimalEighteen()
    ensures AllDigits("18") && DecimalValue("18") == 18
  {
    assert "18"[..1] == "1";
  }

  /** Evaluation step of the counterexample below: parsing "v18". */
  lemma ParseV18()
    ensures JsParse("v18") == [Num(18)]
  {
    DecimalEighteen();
    JsParseJoined(["18"]);
    assert "v" + Join(["18"], '.') == "v18";
  }

  /** Evaluation step of the counterexample below: parsing "v18.0.0" and
      "v18.0.1". */
  lemma ParseV18Patch(last: char)
    requires last == '0' || last == '1'
    ensures JsParse("v18.0." + [last]) == [Num(18), Num(0), Num(last as int - '0' as int)]
  {
    DecimalEighteen();
    var pieces := ["18", "0", [last]];
    JsParseJoined(pieces);
    assert Join(pieces[2..], '.') == [last];
    assert Join(pieces[1..], '.') == "0." + [last];
    assert "v" + Join(pieces, '.') == "v18.0." + [last];
  }

  /** Evaluation step of the counterexample below: the comparator on the
      parsed forms of "v18", "v18.0.1" and "v18.0.0". */
  lemma TiesOnSampleParts(va: seq<Part>, vb: seq<Part>, vc: seq<Part>)
    requires va == [Num(18)] && vb == [Num(18), Num(0), Num(1)] && vc == [Num(18), Num(0), Num(0)]
    ensures FirstDifferenceAsWritten(va, vb, 0) == 0
    ensures FirstDifferenceAsWritten(va, vc, 0) == 0
    ensures FirstDifferenceAsWritten(vb, vc, 0) < 0
    ensures Keys(va) == [18, 0, 0] && Keys(vb) == [18, 0, 1] && Keys(vc) == [18, 0, 0]
  {
    assert FirstDifferenceAsWritten(va, vb, 1) == 0;
    assert FirstDifferenceAsWritten(va, vc, 1) == 0;
    assert FirstDifferenceAsWritten(vb, vc, 2) == -1;
  }

  /** Two custom entries labelled "v18" and "v18.0.1", "v18" and "v18.0.0"
      compare as ties, yet "v18.0.1" comes strictly before "v18.0.0": the
      comparator's ties are not transitive, so no sort order satisfies it. The
      corrected order puts "v18" after "v18.0.1". */
  lemma AsWrittenTiesAreNotTransitive()
    ensures var a, b, c := NodeVersion("v18", "a", Custom), NodeVersion("v18.0.1", "b", Custom),
                           NodeVersion("v18.0.0", "c", Custom);
      && CompareAsWritten(a, b) == 0
      && CompareAsWritten(a, c) == 0
      && CompareAsWritten(b, c) < 0
      && Precedes(b, a) && !Precedes(a, b)
  {
    SampleParses();
    TiesOnSampleParts(JsParse("v18"), JsParse("v18.0.1"), JsParse("v18.0.0"));
  }

  /** Evaluation step of the counterexample above: the three labels parsed. */
  lemma SampleParses()
    ensures JsParse("v18") == [Num(18)]
    ensures JsParse("v18.0.1") == [Num(18), Num(0), Num(1)]
    ensures JsParse("v18.0.0") == [Num(18), Num(0), Num(0)]
  {
    ParseV18();
    ParseV18Patch('1');
    assert "v18.0." + ['1'] == "v18.0.1";
    ParseV18Patch('0');
    assert "v18.0." + ['0'] == "v18.0.0";
  }

  // -----------------------------------------------------------------------
  // Version normalisation used to verify install and uninstall

  /** `normalize`: lower-cased, with a leading 'v' added when missing. */
  function Normalize(v: string): (r: string)
    ensures StartsWith(r, "v")
    ensures ToLower(r) == r
    ensures StartsWith(ToLower(v), "v") ==> r == ToLower(v)
    ensures !StartsWith(ToLower(v), "v") ==> r == "v" + ToLower(v)
  {
    var low := ToLower(v);
    ToLowerIdempotent(v);
    if StartsWith(low, "v") then low
    else
      assert ToLower("v" + low) == "v" + low by {
        assert forall i :: 0 <= i < |"v" + low| ==> LowerChar(("v" + low)[i]) == ("v" + low)[i];
      }
      "v" + low
  }

  lemma NormalizeIdempotent(v: string)
    ensures Normalize(Normalize(v)) == Normalize(v)
  {
  }

  /** "18.0.0", "v18.0.0" and "V18.0.0" all name the same version. */
  lemma NormalizeIgnoresPrefixAndCase(v: string)
    requires !StartsWith(ToLower(v), "v")
    ensures Normalize("v" + v) == Normalize(v)
    ensures Normalize("V" + v) == Normalize(v)
  {
    assert ToLower("v" + v) == "v" + ToLower(v);
    assert ToLower("V" + v) == "v" + ToLower(v);
  }

  /** Some nvm entry carries the target version, up to normalisation. */
  predicate HasNvmVersion(versions: seq<NodeVersion>, target: string) {
    exists i :: 0 <= i < |versions| && versions[i].source == Nvm && Normalize(versions[i].version) == Normalize(target)
  }

  // -----------------------------------------------------------------------
  // List edits

  predicate IsSystem(v: NodeVersion) { v.source == System }
  predicate IsCustom(v: NodeVersion) { v.source == Custom }
  predicate NotNvm(v: NodeVersion) { v.source != Nvm }

  function SortedVersions(versions: seq<NodeVersion>): seq<NodeVersion> {
    Sorting.InsertionSort(versions, Precedes)
  }

  /** The list after `loadNvmNodes` fetched `fetched`: the old nvm entries
      replaced by the fetched ones, then sorted. */
  function WithNvmNodes(versions: seq<NodeVersion>, fetched: seq<NodeVersion>): seq<NodeVersion> {
    SortedVersions(Sequences.Filter(versions, NotNvm) + fetched)
  }

  /** Reloading keeps every entry that is not from nvm, with its
      multiplicity, takes the nvm entries from the fetched list, and orders
      the result. */
  lemma WithNvmNodesResult(versions: seq<NodeVersion>, fetched: seq<NodeVersion>)
    requires forall i :: 0 <= i < |fetched| ==> fetched[i].source == Nvm
    ensures Sorting.SortedBy(WithNvmNodes(versions, fetched), Precedes)
    ensures forall v: NodeVersion :: multiset(WithNvmNodes(versions, fetched))[v] ==
              if v.source == Nvm then multiset(fetched)[v] else multiset(versions)[v]
  {
    var kept := Sequences.Filter(versions, NotNvm);
    PrecedesIsPreorder();
    Sorting.InsertionSortCorrect(kept + fetched, Precedes);
    forall v: NodeVersion ensures multiset(WithNvmNodes(versions, fetched))[v] ==
        if v.source == Nvm then multiset(fetched)[v] else multiset(versions)[v] {
      Sequences.FilterMultiset(versions, NotNvm, v);
      if v.source != Nvm {
        assert v !in fetched;
      }
    }
  }

  /** An nvm entry is in the reloaded list exactly when it was fetched. */
  lemma WithNvmNodesNvmMember(versions: seq<NodeVersion>, fetched: seq<NodeVersion>, v: NodeVersion)
    requires v.source == Nvm
    ensures v in WithNvmNodes(versions, fetched) <==> v in fetched
  {
    var r := WithNvmNodes(versions, fetched);
    Sequences.FilterMultiset(versions, NotNvm, v);
    assert multiset(r) == multiset(Sequences.Filter(versions, NotNvm)) + multiset(fetched);
    assert v in r <==> v in multiset(r);
  }

  /** An install is reported as done exactly when the fetched list holds the
      target version, the uninstall exactly when it does not. */
  lemma InstallCheckSeesFetchedList(versions: seq<NodeVersion>, fetched: seq<NodeVersion>, target: string)
    requires forall i :: 0 <= i < |fetched| ==> fetched[i].source == Nvm
    ensures HasNvmVersion(WithNvmNodes(versions, fetched), target) <==>
            exists i :: 0 <= i < |fetched| && Normalize(fetched[i].version) == Normalize(target)
  {
    var r := WithNvmNodes(versions, fetched);
    if HasNvmVersion(r, target) {
      var i :| 0 <= i < |r| && r[i].source == Nvm && Normalize(r[i].version) == Normalize(target);
      WithNvmNodesNvmMember(versions, fetched, r[i]);
      var k :| 0 <= k < |fetched| && fetched[k] == r[i];
    }
    if exists i :: 0 <= i < |fetched| && Normalize(fetched[i].version) == Normalize(target) {
      var i :| 0 <= i < |fetched| && Normalize(fetched[i].version) == Normalize(target);
      WithNvmNodesNvmMember(versions, fetched, fetched[i]);
      var k :| 0 <= k < |r| && r[k] == fetched[i];
    }
  }

  /** In an ordered list that holds a system entry, the first entry is a
      system entry. */
  lemma SystemEntryFirst(versions: seq<NodeVersion>)
    requires Sorting.SortedBy(versions, Precedes)
    requires HasSystem(versions)
    ensures versions[0].source == System
  {
    var i :| 0 <= i < |versions| && versions[i].source == System;
    if i > 0 {
      assert Precedes(versions[0], versions[i]);
    }
  }

  const NOT_FOUND_AFTER_INSTALL := "Node version not found after installation. Please check the console window for errors."
  const STILL_PRESENT_AFTER_UNINSTALL := "Node version still exists after uninstallation. Please check the console window for errors."
  const SYSTEM_DEFAULT := "System Default"
  /** The label of the system placeholder when its version cannot be probed. */
  const DEFAULT_LABEL := "默认"

  /** A stored system path that is present, non-empty and not the marker. */
  predicate UsablePath(stored: Option<string>) {
    stored.Some? && stored.value != "" && stored.value != SYSTEM_DEFAULT
  }

  /** The path the system placeholder gets at mount: the stored path, unless
      it is absent, empty or the "System Default" marker, in which case the
      detected path (or the marker when detection fails or yields it). */
  function PlaceholderPath(stored: Option<string>, detected: Result<string, string>): (path: string)
    ensures UsablePath(stored) ==> path == stored.value
    ensures !UsablePath(stored) && detected.Ok? && detected.value != SYSTEM_DEFAULT ==> path == detected.value
    ensures !UsablePath(stored) && (detected.Err? || detected.value == SYSTEM_DEFAULT) ==> path == SYSTEM_DEFAULT
  {
    if UsablePath(stored) then stored.value
    else if detected.Ok? && detected.value != SYSTEM_DEFAULT then detected.value
    else SYSTEM_DEFAULT
  }

  // -----------------------------------------------------------------------
  // The store

  class NodeStore {
    var versions: seq<NodeVersion>
    var loading: bool
    /** The 'custom_nodes' entry of local storage (None: absent or unreadable). */
    var storedCustomNodes: Option<seq<NodeVersion>>
    /** The 'system_node_path' entry of local storage. */
    var storedSystemPath: Option<string>

    constructor (customNodes: Option<seq<NodeVersion>>, systemPath: Option<string>)
      ensures versions == [] && !loading
      ensures storedCustomNodes == customNodes && storedSystemPath == systemPath
    {
      versions := [];
      loading := false;
      storedCustomNodes := customNodes;
      storedSystemPath := systemPath;
    }

    /** `sortVersions`, with the corrected order. */
    method SortVersions()
      modifies this`versions
      ensures versions == SortedVersions(old(versions))
    {
      versions := SortedVersions(versions);
    }

    /** `loadNvmNodes`: a failed fetch leaves the list as it was. */
    method LoadNvmNodes(fetched: Result<seq<NodeVersion>, string>)
      modifies this`versions, this`loading
      ensures !loading
      ensures fetched.Ok? ==> versions == WithNvmNodes(old(versions), fetched.value)
      ensures fetched.Err? ==> versions == old(versions)
    {
      loading := true;
      if fetched.Ok? {
        versions := Sequences.Filter(versions, NotNvm);
        versions := versions + fetched.value;
        SortVersions();
      }
      loading := false;
    }

    /** `saveCustomNodes`: exactly the custom entries, in list order. */
    method SaveCustomNodes()
      modifies this`storedCustomNodes
      ensures storedCustomNodes == Some(Sequences.Filter(versions, IsCustom))
    {
      storedCustomNodes := Some(Sequences.Filter(versions, IsCustom));
    }

    /** `loadCustomNodes`: the stored custom entries appended, when readable. */
    method LoadCustomNodes()
      modifies this`versions
      ensures versions == old(versions) + (if storedCustomNodes.Some? then storedCustomNodes.value else [])
    {
      if storedCustomNodes.Some? {
        versions := versions + storedCustomNodes.value;
      }
    }

    /** `addCustomNode`: the entry is saved before the list is sorted. */
    method AddCustomNode(node: NodeVersion)
      modifies this`versions, this`storedCustomNodes
      ensures storedCustomNodes == Some(Sequences.Filter(old(versions) + [node], IsCustom))
      ensures versions == SortedVersions(old(versions) + [node])
    {
      versions := versions + [node];
      SaveCustomNodes();
      SortVersions();
    }

    /** `removeNode`: every entry with that path dropped, the rest kept in order. */
    method RemoveNode(path: string)
      modifies this`versions, this`storedCustomNodes
      ensures versions == Sequences.Filter(old(versions), (v: NodeVersion) => v.path != path)
      ensures storedCustomNodes == Some(Sequences.Filter(versions, IsCustom))
    {
      versions := Sequences.Filter(versions, (v: NodeVersion) => v.path != path);
      SaveCustomNodes();
    }

    /** `updateSystemNode`: `reported` is what probing the new path printed
        ("" when probing failed). */
    method UpdateSystemNode(newPath: string, reported: string)
      modifies this`versions, this`storedSystemPath
      ensures var idx := Sequences.FindIndex(old(versions), IsSystem);
        && (idx == -1 ==> versions == old(versions) && storedSystemPath == old(storedSystemPath))
        && (idx >= 0 ==>
              && storedSystemPath == Some(newPath)
              && versions == old(versions)[idx := NodeVersion(
                   if newPath != "" && newPath != SYSTEM_DEFAULT && reported != "" then reported
                   else old(versions)[idx].version,
                   newPath, System)])
    {
      var idx := Sequences.FindIndex(versions, IsSystem);
      if idx != -1 {
        versions := versions[idx := versions[idx].(path := newPath)];
        storedSystemPath := Some(newPath);
        if newPath != "" && newPath != SYSTEM_DEFAULT {
          if reported != "" {
            versions := versions[idx := versions[idx].(version := reported)];
          }
        }
      }
    }

    /** `installNode`: `installed` is the outcome of the install command. */
    method InstallNode(version: string, installed: Outcome<string>, fetched: Result<seq<NodeVersion>, string>)
      returns (r: Result<bool, string>)
      modifies this`versions, this`loading
      ensures !loading
      ensures installed.Fail? ==> r == Err(installed.error) && versions == old(versions)
      ensures installed.Pass? ==>
                && versions == (if fetched.Ok? then WithNvmNodes(old(versions), fetched.value) else old(versions))
                && (r.Ok? <==> HasNvmVersion(versions, version))
                && (r.Ok? ==> r.value)
                && (r.Err? ==> r.error == NOT_FOUND_AFTER_INSTALL)
    {
      loading := true;
      if installed.Fail? {
        loading := false;
        return Err(installed.error);
      }
      LoadNvmNodes(fetched);
      var present := HasNvmVersion(versions, version);
      loading := false;
      if !present {
        return Err(NOT_FOUND_AFTER_INSTALL);
      }
      return Ok(true);
    }

    /** `uninstallNode`: done exactly when no nvm entry carries the version. */
    method UninstallNode(version: string, uninstalled: Outcome<string>, fetched: Result<seq<NodeVersion>, string>)
      returns (r: Result<bool, string>)
      modifies this`versions, this`loading
      ensures !loading
      ensures uninstalled.Fail? ==> r == Err(uninstalled.error) && versions == old(versions)
      ensures uninstalled.Pass? ==>
                && versions == (if fetched.Ok? then WithNvmNodes(old(versions), fetched.value) else old(versions))
                && (r.Ok? <==> !HasNvmVersion(versions, version))
                && (r.Ok? ==> r.value)
                && (r.Err? ==> r.error == STILL_PRESENT_AFTER_UNINSTALL)
    {
      loading := true;
      if uninstalled.Fail? {
        loading := false;
        return Err(uninstalled.error);
      }
      LoadNvmNodes(fetched);
      var present := HasNvmVersion(versions, version);
      loading := false;
      if present {
        return Err(STILL_PRESENT_AFTER_UNINSTALL);
      }
      return Ok(true);
    }

    /** The first step of the mount hook: when the list has no system
        entry, the placeholder is appended, and a detected path is saved
        when the stored one is unusable. `detected` is the system Node path
        lookup and `reported` what probing the placeholder's path printed
        ("" on failure). */
    method AddSystemPlaceholder(detected: Result<string, string>, reported: string)
      modifies this`versions, this`storedSystemPath
      ensures versions == WithPlaceholder(old(versions), old(storedSystemPath), detected, reported)
      ensures storedSystemPath == MountedStoredPath(old(versions), old(storedSystemPath), detected)
    {
      if Sequences.FindIndex(versions, IsSystem) == -1 {
        var savedPath := storedSystemPath;
        if savedPath.None? || savedPath.value == "" || savedPath.value == SYSTEM_DEFAULT {
          if detected.Ok? && detected.value != SYSTEM_DEFAULT {
            savedPath := Some(detected.value);
            storedSystemPath := Some(detected.value);
          } else {
            savedPath := Some(SYSTEM_DEFAULT);
          }
        }
        var version := DEFAULT_LABEL;
        if reported != "" {
          version := reported;
        }
        versions := versions + [NodeVersion(version, savedPath.value, System)];
      }
    }

    /** The mount hook: the placeholder, then the stored custom entries, then
        the nvm entries reloaded. */
    method OnMounted(detected: Result<string, string>, reported: string, fetched: Result<seq<NodeVersion>, string>)
      modifies this`versions, this`loading, this`storedSystemPath
      ensures var listed := WithPlaceholder(old(versions), old(storedSystemPath), detected, reported)
                            + (if storedCustomNodes.Some? then storedCustomNodes.value else []);
        && !loading
        && versions == (if fetched.Ok? then WithNvmNodes(listed, fetched.value) else listed)
      ensures storedSystemPath == MountedStoredPath(old(versions), old(storedSystemPath), detected)
    {
      AddSystemPlaceholder(detected, reported);
      LoadCustomNodes();
      LoadNvmNodes(fetched);
    }
  }

  predicate HasSystem(versions: seq<NodeVersion>) {
    exists i :: 0 <= i < |versions| && versions[i].source == System
  }

  /** The list with the system placeholder appended when it has no system
      entry. */
  function WithPlaceholder(versions: seq<NodeVersion>, stored: Option<string>, detected: Result<string, string>,
                           reported: string): (r: seq<NodeVersion>)
    ensures HasSystem(r)
    ensures HasSystem(versions) ==> r == versions
    ensures !HasSystem(versions) ==> |r| == |versions| + 1 && r[..|versions|] == versions
    ensures !HasSystem(versions) ==>
      r[|versions|] == NodeVersion(if reported != "" then reported else DEFAULT_LABEL,
                                   PlaceholderPath(stored, detected), System)
  {
    if HasSystem(versions) then versions
    else
      var placeholder := NodeVersion(if reported != "" then reported else DEFAULT_LABEL,
                                     PlaceholderPath(stored, detected), System);
      assert (versions + [placeholder])[|versions|] == placeholder;
      versions + [placeholder]
  }

  /** The stored system path after mounting: the detected path is saved only
      when a placeholder is added, the stored path is unusable, and detection
      yields a real path. */
  function MountedStoredPath(versions: seq<NodeVersion>, stored: Option<string>, detected: Result<string, string>): Option<string> {
    if !HasSystem(versions) && (stored.None? || stored.value == "" || stored.value == SYSTEM_DEFAULT)
       && detected.Ok? && detected.value != SYSTEM_DEFAULT
    then Some(detected.value)
    else stored
  }

  /** After mounting and a successful reload, the list starts with a system
      entry. */
  lemma MountedListStartsWithSystem(withSystem: seq<NodeVersion>, custom: seq<NodeVersion>, fetched: seq<NodeVersion>)
    requires HasSystem(withSystem)
    requires forall i :: 0 <= i < |fetched| ==> fetched[i].source == Nvm
    ensures |WithNvmNodes(withSystem + custom, fetched)| > 0
    ensures WithNvmNodes(withSystem + custom, fetched)[0].source == System
  {
    var listed := withSystem + custom;
    var r := WithNvmNodes(listed, fetched);
    var j :| 0 <= j < |withSystem| && withSystem[j].source == System;
    var v := withSystem[j];
    assert listed[j] == v;
    assert v in multiset(listed);
    WithNvmNodesResult(listed, fetched);
    assert v in multiset(r);
    assert v in r;
    var k :| 0 <= k < |r| && r[k] == v;
    SystemEntryFirst(r);
  }
}
