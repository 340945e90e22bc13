/** The desktop back end's package scan (`scan_project`): the project's name
    and its sorted script names, read from an already-parsed package.json.
    Whether the file exists, reading it, parsing it and the directory's file
    name are inputs. */
module ProjectScan {
  import opened Wrappers
  import opened Types
  import Sorting

  /** The parsed package.json: its name, and the keys of its scripts map in
      the map's iteration order (None when the map is absent). */
  datatype PackageJson = PackageJson(name: Option<string>, scriptKeys: Option<seq<string>>)

  /** Map keys are distinct. */
  predicate DistinctKeys(pkg: PackageJson) {
    pkg.scriptKeys.Some? ==>
      forall i, j :: 0 <= i < j < |pkg.scriptKeys.value| ==> pkg.scriptKeys.value[i] != pkg.scriptKeys.value[j]
  }

  /** Why a scan produced no result: an error message, or a panic of one of
      the `unwrap` calls on the directory's file name. */
  datatype ScanError = Message(text: string) | Panicked

  function CodePoints(s: string): (p: seq<nat>)
    ensures |p| == |s|
    ensures forall i :: 0 <= i < |s| ==> p[i] == s[i] as nat
  {
    seq(|s|, i requires 0 <= i < |s| => s[i] as nat)
  }

  /** Rust's `Ord` on `String`: byte-wise on UTF-8, which is code point order. */
  predicate StringLe(a: string, b: string) {
    Sorting.LexLe(CodePoints(a), CodePoints(b))
  }

  lemma StringLeIsPreorder()
    ensures Sorting.TotalPreorder(StringLe)
  {
    forall a, b ensures StringLe(a, b) || StringLe(b, a) {
      Sorting.LexLeTotal(CodePoints(a), CodePoints(b));
    }
    forall a, b, c | StringLe(a, b) && StringLe(b, c) ensures StringLe(a, c) {
      Sorting.LexLeTransitive(CodePoints(a), CodePoints(b), CodePoints(c));
    }
  }

  /** `keys().cloned().collect()` followed by `sort()`. */
  function SortedScripts(keys: Option<seq<string>>): seq<string> {
    Sorting.InsertionSort(if keys.Some? then keys.value else [], StringLe)
  }

  /** `scan_project`. `fileName` is the directory's file name (None when the
      path has none or it is not valid Unicode), `read` the result of reading
      package.json and `parsed` the result of parsing what was read. */
  function ScanProject(path: string, packageJsonExists: bool, read: Result<string, string>,
                       parsed: Result<PackageJson, string>, fileName: Option<string>): (r: Result<ProjectInfo, ScanError>)
    ensures !packageJsonExists ==> r == Err(Message("package.json not found"))
    ensures packageJsonExists && read.Err? ==> r == Err(Message(read.error))
    ensures packageJsonExists && read.Ok? && parsed.Err? ==> r == Err(Message(parsed.error))
    ensures r.Ok? ==> r.value.path == path && parsed.Ok?
    ensures r.Ok? ==> if parsed.value.name.Some? then r.value.name == parsed.value.name.value
                      else fileName.Some? && r.value.name == fileName.value
    ensures r == Err(Panicked) <==> packageJsonExists && read.Ok? && parsed.Ok? && parsed.value.name.None? && fileName.None?
  {
    if !packageJsonExists then Err(Message("package.json not found"))
    else if read.Err? then Err(Message(read.error))
    else if parsed.Err? then Err(Message(parsed.error))
    else
      var pkg := parsed.value;
      var scripts := SortedScripts(pkg.scriptKeys);
      if pkg.name.Some? then Ok(ProjectInfo(pkg.name.value, scripts, path))
      else if fileName.Some? then Ok(ProjectInfo(fileName.value, scripts, path))
      else Err(Panicked)
  }

  /** The script list is exactly the scripts map's keys (none when the map is
      absent), in strictly ascending order, so without duplicates. */
  lemma ScanScripts(path: string, read: Result<string, string>, pkg: PackageJson, fileName: Option<string>)
    requires DistinctKeys(pkg)
    requires ScanProject(path, true, read, Ok(pkg), fileName).Ok?
    ensures var scripts := ScanProject(path, true, read, Ok(pkg), fileName).value.scripts;
      && (pkg.scriptKeys.None? ==> scripts == [])
      && (pkg.scriptKeys.Some? ==> multiset(scripts) == multiset(pkg.scriptKeys.value))
      && (forall i, j :: 0 <= i < j < |scripts| ==> StringLe(scripts[i], scripts[j]) && scripts[i] != scripts[j])
  {
    var keys := if pkg.scriptKeys.Some? then pkg.scriptKeys.value else [];
    var scripts := SortedScripts(pkg.scriptKeys);
    StringLeIsPreorder();
    Sorting.InsertionSortCorrect(keys, StringLe);
    forall i, j | 0 <= i < j < |scripts| ensures scripts[i] != scripts[j] {
      if scripts[i] == scripts[j] {
        DuplicateInSortedMeansDuplicateKey(keys, scripts, i, j);
      }
    }
  }

  /** Two equal entries in a permutation of `keys` mean `keys` repeats one. */
  lemma DuplicateInSortedMeansDuplicateKey(keys: seq<string>, scripts: seq<string>, i: nat, j: nat)
    requires multiset(scripts) == multiset(keys)
    requires i < j < |scripts| && scripts[i] == scripts[j]
    ensures exists a, b :: 0 <= a < b < |keys| && keys[a] == keys[b]
  {
    var x := scripts[i];
    assert multiset(scripts)[x] >= 2 by {
      assert scripts == scripts[..j] + [x] + scripts[j + 1..];
      assert x in scripts[..j];
    }
    var a :| 0 <= a < |keys| && keys[a] == x;
    var rest := keys[..a] + keys[a + 1..];
    assert keys == keys[..a] + [x] + keys[a + 1..];
    assert x in multiset(rest);
    var k :| 0 <= k < |rest| && rest[k] == x;
    if k < a {
      assert keys[k] == x;
    } else {
      assert keys[k + 1] == x;
    }
  }
}
