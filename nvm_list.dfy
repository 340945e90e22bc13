/** The desktop back end's listing of nvm-installed Node versions
    (`get_nvm_list`): the sub-directories of NVM_HOME whose name starts with
    "v", newest version first. The environment lookup and the directory
    listing are inputs. */
module NvmList {
  import opened Wrappers
  import opened Text
  import opened Types
  import Sorting

  const U32_MAX: nat := 0xFFFF_FFFF

  /** Rust `str::parse::<u32>()`: an optional '+' followed by one or more ASCII
      digits whose value fits in 32 bits; anything else is an error. */
  function ParseU32(s: string): (r: Option<nat>)
    ensures r.Some? ==> r.value <= U32_MAX
    ensures r.Some? ==> |s| >= 1 && (IsDigit(s[0]) || s[0] == '+')
    ensures var digits := if |s| > 0 && s[0] == '+' then s[1..] else s;
      r.Some? <==> digits != [] && AllDigits(digits) && DecimalValue(digits) <= U32_MAX
    ensures var digits := if |s| > 0 && s[0] == '+' then s[1..] else s;
      r.Some? ==> r.value == DecimalValue(digits)
  {
    var digits := if |s| > 0 && s[0] == '+' then s[1..] else s;
    if digits != [] && AllDigits(digits) && DecimalValue(digits) <= U32_MAX
    then Some(DecimalValue(digits))
    else None
  }

  /** One dot-separated component: its value, or 0 when it does not parse. */
  function ComponentValue(s: string): (n: nat)
    ensures n <= U32_MAX
    ensures ParseU32(s).None? ==> n == 0
    ensures ParseU32(s).Some? ==> n == ParseU32(s).value
  {
    match ParseU32(s)
    case Some(v) => v
    case None => 0
  }

  predicate IsV(c: char) {
    c == 'v'
  }

  /** The `parse_version` closure: all leading 'v' characters stripped, the rest
      split on '.', each component read as a number. */
  function ParseVersion(name: string): (parts: seq<nat>)
    ensures |parts| == |Split(TrimStartBy(name, IsV), '.')| >= 1
    ensures forall i :: 0 <= i < |parts| ==> parts[i] <= U32_MAX
    ensures forall i :: 0 <= i < |parts| ==>
      parts[i] == ComponentValue(Split(TrimStartBy(name, IsV), '.')[i])
  {
    var pieces := Split(TrimStartBy(name, IsV), '.');
    seq(|pieces|, i requires 0 <= i < |pieces| => ComponentValue(pieces[i]))
  }

  /** A version label as nvm names its directories: "v" and the components
      joined by '.'. */
  function FormatVersion(parts: seq<nat>): string
    requires |parts| >= 1
  {
    "v" + Join(seq(|parts|, i requires 0 <= i < |parts| => NatToString(parts[i])), '.')
  }

  lemma ParseU32Numeral(n: nat)
    requires n <= U32_MAX
    ensures ParseU32(NatToString(n)) == Some(n)
  {
    var s := NatToString(n);
    assert s[0] != '+' by { assert IsDigit(s[0]); }
  }

  lemma NumeralHasNoDot(n: nat)
    ensures '.' !in NatToString(n)
  {
  }

  /** Parsing inverts formatting for every 32-bit component list. */
  lemma ParseFormatVersion(parts: seq<nat>)
    requires |parts| >= 1
    requires forall i :: 0 <= i < |parts| ==> parts[i] <= U32_MAX
    ensures ParseVersion(FormatVersion(parts)) == parts
  {
    var strs := seq(|parts|, i requires 0 <= i < |parts| => NatToString(parts[i]));
    forall i | 0 <= i < |strs| ensures '.' !in strs[i] {
      NumeralHasNoDot(parts[i]);
    }
    var joined := Join(strs, '.');
    SplitJoin(strs, '.');
    StripsOneV(strs);
    var parsed := ParseVersion(FormatVersion(parts));
    assert |parsed| == |parts|;
    forall i | 0 <= i < |parts| ensures parsed[i] == parts[i] {
      ParseU32Numeral(parts[i]);
    }
  }

  lemma StripsOneV(strs: seq<string>)
    requires |strs| >= 1 && |strs[0]| >= 1 && IsDigit(strs[0][0])
    ensures TrimStartBy("v" + Join(strs, '.'), IsV) == Join(strs, '.')
  {
    var joined := Join(strs, '.');
    JoinStartsWith(strs, '.');
    var name := "v" + joined;
    assert name[1..] == joined;
  }

  lemma {:induction false} JoinStartsWith(strs: seq<string>, sep: char)
    requires |strs| >= 1 && |strs[0]| >= 1
    ensures |Join(strs, sep)| >= 1 && Join(strs, sep)[0] == strs[0][0]
  {
  }

  /** Rust's stable `sort_by(|a, b| vb.cmp(&va))`: `a` may precede `b` when
      its parsed version is not smaller. */
  predicate NewerOrSame(a: NodeVersion, b: NodeVersion) {
    Sorting.LexLe(ParseVersion(b.version), ParseVersion(a.version))
  }

  lemma NewerOrSameIsPreorder()
    ensures Sorting.TotalPreorder(NewerOrSame)
  {
    forall a, b ensures NewerOrSame(a, b) || NewerOrSame(b, a) {
      Sorting.LexLeTotal(ParseVersion(a.version), ParseVersion(b.version));
    }
    forall a, b, c | NewerOrSame(a, b) && NewerOrSame(b, c) ensures NewerOrSame(a, c) {
      Sorting.LexLeTransitive(ParseVersion(c.version), ParseVersion(b.version), ParseVersion(a.version));
    }
  }

  /** One entry of `fs::read_dir`: an entry error, or an entry with its full
      path, whether it is a directory, and its file name when that is valid
      Unicode. */
  datatype DirEntry = EntryError | Entry(path: string, isDir: bool, name: Option<string>)

  /** The entry nvm would list: a readable directory whose name starts with "v". */
  predicate IsVersionDir(e: DirEntry) {
    e.Entry? && e.isDir && e.name.Some? && StartsWith(e.name.value, "v")
  }

  function EntryVersion(e: DirEntry): NodeVersion
    requires IsVersionDir(e)
  {
    NodeVersion(e.name.value, e.path, Nvm)
  }

  /** The listed entries in directory order, before sorting. */
  function VersionDirs(entries: seq<DirEntry>): seq<NodeVersion> {
    if entries == [] then []
    else
      var last := entries[|entries| - 1];
      VersionDirs(entries[..|entries| - 1]) + (if IsVersionDir(last) then [EntryVersion(last)] else [])
  }

  lemma {:induction false} VersionDirsMembers(entries: seq<DirEntry>, v: NodeVersion)
    ensures v in VersionDirs(entries) <==>
            exists i :: 0 <= i < |entries| && IsVersionDir(entries[i]) && v == EntryVersion(entries[i])
  {
    if entries != [] {
      var front := entries[..|entries| - 1];
      VersionDirsMembers(front, v);
      if v in VersionDirs(entries) && v !in VersionDirs(front) {
        assert IsVersionDir(entries[|entries| - 1]);
      }
      if exists i :: 0 <= i < |entries| && IsVersionDir(entries[i]) && v == EntryVersion(entries[i]) {
        var i :| 0 <= i < |entries| && IsVersionDir(entries[i]) && v == EntryVersion(entries[i]);
        if i < |front| {
          assert front[i] == entries[i];
        }
      }
    }
  }

  /** `get_nvm_list`: `nvmHome` is the NVM_HOME variable (None when unset) and
      `listing` the entries of that directory (None when it cannot be read). */
  method GetNvmList(nvmHome: Option<string>, listing: Option<seq<DirEntry>>)
    returns (r: Result<seq<NodeVersion>, string>)
    ensures nvmHome.None? ==> r == Err("NVM_HOME not set")
    ensures nvmHome.Some? && listing.None? ==> r == Ok([])
    ensures nvmHome.Some? && listing.Some? ==>
              r == Ok(Sorting.InsertionSort(VersionDirs(listing.value), NewerOrSame))
  {
    if nvmHome.None? {
      return Err("NVM_HOME not set");
    }
    var versions: seq<NodeVersion> := [];
    if listing.Some? {
      var entries := listing.value;
      var i := 0;
      while i < |entries|
        invariant 0 <= i <= |entries|
        invariant versions == VersionDirs(entries[..i])
      {
        var e := entries[i];
        assert entries[..i + 1][..i] == entries[..i];
        if e.Entry? && e.isDir && e.name.Some? && StartsWith(e.name.value, "v") {
          versions := versions + [NodeVersion(e.name.value, e.path, Nvm)];
        }
        i := i + 1;
      }
      assert entries[..|entries|] == entries;
    }
    versions := Sorting.InsertionSort(versions, NewerOrSame);
    return Ok(versions);
  }

  /** What the listing promises: exactly the "v" directories, each tagged as an
      nvm entry named after its directory, newest first, with equal versions
      kept in directory order. */
  lemma GetNvmListResult(entries: seq<DirEntry>)
    ensures var out := Sorting.InsertionSort(VersionDirs(entries), NewerOrSame);
      && multiset(out) == multiset(VersionDirs(entries))
      && Sorting.SortedBy(out, NewerOrSame)
      && (forall x :: Sorting.TiedWith(out, x, NewerOrSame) == Sorting.TiedWith(VersionDirs(entries), x, NewerOrSame))
      && (forall v :: v in out <==>
            exists i :: 0 <= i < |entries| && IsVersionDir(entries[i]) && v == EntryVersion(entries[i]))
      && (forall k :: 0 <= k < |out| ==> out[k].source == Nvm && StartsWith(out[k].version, "v"))
  {
    var listed := VersionDirs(entries);
    var out := Sorting.InsertionSort(listed, NewerOrSame);
    NewerOrSameIsPreorder();
    Sorting.InsertionSortCorrect(listed, NewerOrSame);
    forall v ensures v in out <==> v in listed {
      assert v in out <==> v in multiset(out);
    }
    forall v ensures v in listed <==>
        exists i :: 0 <= i < |entries| && IsVersionDir(entries[i]) && v == EntryVersion(entries[i]) {
      VersionDirsMembers(entries, v);
    }
    forall k | 0 <= k < |out| ensures out[k].source == Nvm && StartsWith(out[k].version, "v") {
      assert out[k] in out;
      VersionDirsMembers(entries, out[k]);
    }
  }
}
