/** The file-list logic of pywhids/artifacts.py: the names of one artifact
    file and the queries over the file list that the EDR manager stores for
    one event. */
module Artifacts {
  import opened Wrappers
  import opened Text
  import opened Seqs
  import opened Utils

  /** One file stored by the manager for an endpoint (`Artifact`). */
  datatype Artifact = Artifact(endpointUuid: string, url: string, name: string, size: int, timestamp: string)

  /** `Artifact.path`: the URL and the name joined by one `/`. */
  function Path(a: Artifact): (p: string)
    ensures |p| == |a.url| + 1 + |a.name|
    ensures StartsWith(p, a.url) && p[|a.url|] == '/' && EndsWith(p, a.name)
  {
    a.url + "/" + a.name
  }

  /** The URL and the name can be read back from the path when the name has no `/`. */
  lemma PathParts(a: Artifact)
    requires '/' !in a.name
    ensures RFind(Path(a), '/') == |a.url|
    ensures Path(a)[..|a.url|] == a.url && Path(a)[|a.url| + 1..] == a.name
  {
    var p := Path(a);
    assert p[..|a.url|] == a.url;
    assert p[|a.url| + 1..] == a.name;
    RFindAfter(p, |a.url|, '/');
  }

  /** When `s[k]` is `c` and no later character is, `k` is the last index of `c`. */
  lemma {:induction false} RFindAfter(s: string, k: nat, c: char)
    requires k < |s| && s[k] == c && c !in s[k + 1..]
    ensures RFind(s, c) == k
    decreases |s|
  {
    if k < |s| - 1 {
      assert s[|s| - 1] in s[k + 1..];
      var t := s[..|s| - 1];
      assert s[k + 1..] == t[k + 1..] + [s[|s| - 1]];
      RFindAfter(t, k, c);
    }
  }

  /** The name with a trailing `.gz`, then a trailing `.bin`, removed. */
  function Stripped(name: string): (f: string)
    ensures EndsWith(name, ".bin.gz") ==> f + ".bin.gz" == name
    ensures !EndsWith(name, ".gz") && EndsWith(name, ".bin") ==> f + ".bin" == name
    ensures EndsWith(name, ".gz") && !EndsWith(name, ".bin.gz") ==> f + ".gz" == name
    ensures !EndsWith(name, ".gz") && !EndsWith(name, ".bin") ==> f == name
  {
    RemoveSuffix(RemoveSuffix(name, ".gz"), ".bin")
  }

  /** `original_name` fails with Python's `IndexError` when there is no `_`. */
  datatype NameError = NoUnderscore

  /** `Artifact.original_name`: the stripped name after its first `_`. */
  function OriginalName(a: Artifact): (r: Result<string, NameError>)
    ensures '_' !in Stripped(a.name) <==> r == Err(NoUnderscore)
    ensures r.Ok? ==>
      var f := Stripped(a.name);
      var k := |f| - |r.value| - 1;
      0 <= k && '_' !in f[..k] && f[k] == '_' && f[k + 1..] == r.value
  {
    var f := Stripped(a.name);
    var parts := Split(f, '_');
    if |parts| < 2 then Err(NoUnderscore)
    else
      SplitHead(f, '_');
      JoinSplitTail(f, '_');
      Ok(Join(parts[1..], '_'))
  }

  /** The pieces after the first separator join back to the text after it. */
  lemma JoinSplitTail(s: string, c: char)
    requires c in s
    ensures |Split(s, c)| >= 2
    ensures Join(Split(s, c)[1..], c) == s[IndexOf(s, c) + 1..]
  {
    var k := IndexOf(s, c);
    SplitHead(s, c);
    SplitJoin(s[k + 1..], c);
  }

  /** A dump name made of a tag, `_`, the original name and `.bin.gz` gives the
      original name back. */
  lemma OriginalNameOfDump(a: Artifact, tag: string, original: string)
    requires '_' !in tag && a.name == tag + "_" + original + ".bin.gz"
    ensures OriginalName(a) == Ok(original)
  {
    var f := tag + "_" + original;
    assert EndsWith(a.name, ".bin.gz") by { assert a.name[|a.name| - 7..] == ".bin.gz"; }
    assert Stripped(a.name) == f by {
      var g := RemoveSuffix(a.name, ".gz");
      assert g == a.name[..|a.name| - 3];
      assert g == f + ".bin";
      assert EndsWith(g, ".bin") by { assert g[|g| - 4..] == ".bin"; }
    }
    assert f[..|tag|] == tag;
    assert f[|tag|] == '_';
  }

  /** `p[k]` is the dot that starts an extension: no `.` or `/` follows it, and
      its path component has a character other than `.` before it. */
  predicate ExtensionAt(p: string, k: int)
  {
    && 0 <= k < |p| && p[k] == '.' && '.' !in p[k + 1..] && '/' !in p[k + 1..]
    && exists j :: 0 <= j < k && p[j] != '.' && '/' !in p[j..k]
  }

  /** Python's `os.path.splitext` on POSIX: split at the last `.` after the
      last `/`, unless everything before that `.` in the last component is a dot. */
  function SplitExt(p: string): (r: (string, string))
    ensures r.0 + r.1 == p
    ensures r.1 == [] || (r.1[0] == '.' && '.' !in r.1[1..] && '/' !in r.1)
    ensures r.1 != [] <==> exists k :: ExtensionAt(p, k)
  {
    var sep := RFind(p, '/');
    var dot := RFind(p, '.');
    if dot > sep && NotAllDots(p, sep + 1, dot) then
      LastDotIsExtension(p);
      assert p[..dot] + p[dot..] == p;
      assert p[dot..] == [p[dot]] + p[dot + 1..];
      (p[..dot], p[dot..])
    else
      assert forall k :: !ExtensionAt(p, k) by {
        forall k ensures !ExtensionAt(p, k) {
          if ExtensionAt(p, k) {
            ExtensionIsLastDot(p, k);
          }
        }
      }
      (p, [])
  }

  /** Where there is an extension, `splitext` splits at its dot. */
  lemma SplitExtAt(p: string, k: int)
    requires ExtensionAt(p, k)
    ensures SplitExt(p) == (p[..k], p[k..])
  {
    ExtensionIsLastDot(p, k);
  }

  /** Some character of `p[lo..hi]` is not a dot. */
  predicate NotAllDots(p: string, lo: int, hi: int)
    requires 0 <= lo <= hi <= |p|
  {
    exists i :: lo <= i < hi && p[i] != '.'
  }

  /** The last `.`, when it follows the last `/` with a character other than
      `.` between them, starts an extension. */
  lemma LastDotIsExtension(p: string)
    requires RFind(p, '.') > RFind(p, '/')
    requires NotAllDots(p, RFind(p, '/') + 1, RFind(p, '.'))
    ensures ExtensionAt(p, RFind(p, '.'))
  {
    var sep, dot := RFind(p, '/'), RFind(p, '.');
    var j :| sep + 1 <= j < dot && p[j] != '.';
    var u := p[j..dot];
    assert forall i :: 0 <= i < |u| ==> u[i] == p[j + i];
    var t := p[dot + 1..];
    assert forall i :: 0 <= i < |t| ==> t[i] == p[dot + 1 + i];
  }

  /** An extension dot is the last `.` of the path, lies after its last `/`, and
      has a character other than `.` between the two. */
  lemma ExtensionIsLastDot(p: string, k: int)
    requires ExtensionAt(p, k)
    ensures RFind(p, '.') == k && RFind(p, '/') < k && NotAllDots(p, RFind(p, '/') + 1, k)
  {
    var j :| 0 <= j < k && p[j] != '.' && '/' !in p[j..k];
    RFindAfter(p, k, '.');
    forall i | j <= i < |p| ensures p[i] != '/' {
      if i < k {
        assert p[i] == p[j..k][i - j];
      } else if i > k {
        assert p[i] == p[k + 1..][i - k - 1];
      }
    }
  }

  /** A stem ending in an ordinary character followed by `.x` splits there. */
  lemma SplitExtOfStem(stem: string, x: string)
    requires '.' !in x && '/' !in x
    requires stem != [] && stem[|stem| - 1] != '.' && stem[|stem| - 1] != '/'
    ensures SplitExt(stem + "." + x) == (stem, "." + x)
  {
    var p := stem + "." + x;
    var n := |stem|;
    assert p[n] == '.' && p[n + 1..] == x;
    RFindAfter(p, n, '.');
    assert p[n - 1] != '/';
    assert RFind(p, '/') < n - 1 by {
      assert forall j :: n < j < |p| ==> p[j] == x[j - n - 1];
    }
    assert NotAllDots(p, RFind(p, '/') + 1, n) by { assert p[n - 1] != '.'; }
    assert p[..n] == stem && p[n..] == "." + x;
  }

  /** A hidden file such as `dir/.bashrc` has no extension. */
  lemma SplitExtOfDotfile(dir: string, x: string)
    requires '.' !in x && '/' !in x
    ensures SplitExt(dir + "/." + x) == (dir + "/." + x, [])
  {
    var p := dir + "/." + x;
    var n := |dir|;
    assert p[n] == '/' && p[n + 1] == '.' && p[n + 2..] == x;
    assert p[n + 1..] == "." + x;
    RFindAfter(p, n + 1, '.');
    assert '/' !in p[n + 1..];
    RFindAfter(p, n, '/');
  }

  /** `Artifact.original_ext`: the extension of the stripped name. */
  function OriginalExt(a: Artifact): (ext: string)
    ensures EndsWith(Stripped(a.name), ext)
    ensures ext == [] || (ext[0] == '.' && '.' !in ext[1..] && '/' !in ext)
    ensures ext != [] <==> exists k :: ExtensionAt(Stripped(a.name), k)
    ensures forall k :: ExtensionAt(Stripped(a.name), k) ==> ext == Stripped(a.name)[k..]
  {
    assert forall k | ExtensionAt(Stripped(a.name), k) :: SplitExt(Stripped(a.name)).1 == Stripped(a.name)[k..] by {
      forall k | ExtensionAt(Stripped(a.name), k) ensures SplitExt(Stripped(a.name)).1 == Stripped(a.name)[k..] {
        SplitExtAt(Stripped(a.name), k);
      }
    }
    var r := SplitExt(Stripped(a.name));
    assert Stripped(a.name)[|Stripped(a.name)| - |r.1|..] == r.1;
    r.1
  }

  /** `Artifact.is_filedump`: the name marks a memory or file dump. */
  predicate IsFiledump(a: Artifact)
  {
    EndsWith(a.name, ".bin") || EndsWith(a.name, ".bin.gz")
  }

  /** A file dump is exactly a name whose `.gz`-stripped form still ends in
      `.bin`, that is, one whose `original_name` lost a `.bin`. */
  lemma FiledumpIff(a: Artifact)
    ensures IsFiledump(a) <==> EndsWith(RemoveSuffix(a.name, ".gz"), ".bin")
  {
    var n := a.name;
    if EndsWith(n, ".gz") {
      var g := n[..|n| - 3];
      assert RemoveSuffix(n, ".gz") == g;
      if EndsWith(g, ".bin") {
        assert n[|n| - 7..] == g[|g| - 4..] + ".gz";
      }
      if EndsWith(n, ".bin.gz") {
        assert g[|g| - 4..] == n[|n| - 7..|n| - 3];
      }
      assert n[|n| - 1] == n[|n| - 3..][2] == 'z';
    }
  }

  /** One entry of the `files` list of an artifact record. */
  datatype FileEntry = FileEntry(name: string, size: int, timestamp: string)

  /** The record the manager returns for one event of one endpoint (`EventArtifacts`). */
  datatype EventArtifacts = EventArtifacts(uuid: string, baseUrl: string, files: seq<FileEntry>)

  /** The artifact for one entry of the list. */
  function Build(ea: EventArtifacts, f: FileEntry): (a: Artifact)
    ensures a.name == f.name && a.url == ea.baseUrl && a.endpointUuid == ea.uuid
  {
    Artifact(ea.uuid, ea.baseUrl, f.name, f.size, f.timestamp)
  }

  /** The artifacts for a list of entries, in order. */
  function Built(ea: EventArtifacts, fs: seq<FileEntry>): (r: seq<Artifact>)
    ensures |r| == |fs| && forall i :: 0 <= i < |fs| ==> r[i] == Build(ea, fs[i])
  {
    seq(|fs|, i requires 0 <= i < |fs| => Build(ea, fs[i]))
  }

  /** `EventArtifacts.filenames`. */
  function Filenames(ea: EventArtifacts): (r: seq<string>)
    ensures |r| == |ea.files| && forall i :: 0 <= i < |r| ==> r[i] == ea.files[i].name
  {
    seq(|ea.files|, i requires 0 <= i < |ea.files| => ea.files[i].name)
  }

  /** `EventArtifacts._has_file`. */
  predicate HasFile(ea: EventArtifacts, name: string)
  {
    name in Filenames(ea)
  }

  /** Reference definition of `_file`: the first entry with the name. */
  function FirstNamed(files: seq<FileEntry>, name: string): (r: Option<FileEntry>)
    ensures r.None? <==> forall i :: 0 <= i < |files| ==> files[i].name != name
    ensures r.Some? ==> exists i :: 0 <= i < |files| && files[i] == r.value && r.value.name == name &&
                                    forall j :: 0 <= j < i ==> files[j].name != name
  {
    if files == [] then None
    else if files[0].name == name then Some(files[0])
    else
      var r := FirstNamed(files[1..], name);
      assert forall i :: 1 <= i < |files| ==> files[i] == files[1..][i - 1];
      r
  }

  /** `EventArtifacts._file`: scan the list for the first entry with the name. */
  method File(ea: EventArtifacts, name: string) returns (r: Option<FileEntry>)
    ensures r == FirstNamed(ea.files, name)
  {
    var i := 0;
    while i < |ea.files|
      invariant 0 <= i <= |ea.files|
      invariant FirstNamed(ea.files, name) == FirstNamed(ea.files[i..], name)
    {
      assert ea.files[i..][1..] == ea.files[i + 1..];
      if ea.files[i].name == name {
        return Some(ea.files[i]);
      }
      i := i + 1;
    }
    return None;
  }

  /** `_has_file` holds exactly when `_file` finds an entry. */
  lemma HasFileIff(ea: EventArtifacts, name: string)
    ensures HasFile(ea, name) <==> FirstNamed(ea.files, name).Some?
  {
    if HasFile(ea, name) {
      var i :| 0 <= i < |Filenames(ea)| && Filenames(ea)[i] == name;
      assert ea.files[i].name == name;
    }
    var r := FirstNamed(ea.files, name);
    if r.Some? {
      var i :| 0 <= i < |ea.files| && ea.files[i] == r.value && r.value.name == name;
      assert Filenames(ea)[i] == name;
    }
  }

  /** `EventArtifacts.artifact`: the artifact for the first entry with the
      name, or nothing when no entry has it. */
  method ArtifactNamed(ea: EventArtifacts, name: string) returns (r: Option<Artifact>)
    ensures r.None? <==> !HasFile(ea, name)
    ensures r.Some? ==> FirstNamed(ea.files, name).Some? && r.value == Build(ea, FirstNamed(ea.files, name).value)
    ensures r.Some? ==> r.value.name == name && r.value.url == ea.baseUrl && r.value.endpointUuid == ea.uuid
  {
    HasFileIff(ea, name);
    if name in Filenames(ea) {
      var f := File(ea, name);
      return Some(Build(ea, f.value));
    }
    return None;
  }

  /** `EventArtifacts.has_report`. */
  predicate HasReport(ea: EventArtifacts)
  {
    HasFile(ea, "report.json.gz") || HasFile(ea, "report.json")
  }

  /** A report is present exactly when some entry is named `report.json` or
      `report.json.gz`. */
  lemma HasReportIff(ea: EventArtifacts)
    ensures HasReport(ea) <==>
      exists i :: 0 <= i < |ea.files| && (ea.files[i].name == "report.json" || ea.files[i].name == "report.json.gz")
  {
    if HasReport(ea) {
      var i :| 0 <= i < |Filenames(ea)| && Filenames(ea)[i] in ["report.json.gz", "report.json"];
      assert ea.files[i].name == Filenames(ea)[i];
    }
  }

  /** The entry test of `artifacts(pattern, exclude)` for a compiled pattern. */
  function Matches(search: string -> bool): FileEntry -> bool
  {
    (f: FileEntry) => search(f.name)
  }

  /** An entry is yielded when the pattern's verdict differs from `exclude`. */
  function Selects(search: string -> bool, exclude: bool): FileEntry -> bool
  {
    if exclude then Not(Matches(search)) else Matches(search)
  }

  /** Reference definition of `artifacts`: the selected entries, in list order. */
  function Selected(ea: EventArtifacts, search: string -> bool, exclude: bool): seq<Artifact>
  {
    Built(ea, Filter(Selects(search, exclude), ea.files))
  }

  /** `EventArtifacts.artifacts(pattern, exclude)`; `search` says whether the
      compiled pattern finds a match in a name. */
  method ArtifactsOf(ea: EventArtifacts, search: string -> bool, exclude: bool) returns (r: seq<Artifact>)
    ensures r == Selected(ea, search, exclude)
    ensures forall i :: 0 <= i < |r| ==> search(r[i].name) != exclude
  {
    r := [];
    var i := 0;
    while i < |ea.files|
      invariant 0 <= i <= |ea.files|
      invariant r == Built(ea, Filter(Selects(search, exclude), ea.files[..i]))
    {
      var f := ea.files[i];
      assert ea.files[..i + 1][..i] == ea.files[..i];
      if search(f.name) && !exclude {
        r := r + [Build(ea, f)];
      } else if !search(f.name) && exclude {
        r := r + [Build(ea, f)];
      }
      i := i + 1;
    }
    assert ea.files[..i] == ea.files;
    SelectedMatch(ea, search, exclude);
  }

  /** Every selected artifact's name gets the verdict that selects it. */
  lemma SelectedMatch(ea: EventArtifacts, search: string -> bool, exclude: bool)
    ensures forall i :: 0 <= i < |Selected(ea, search, exclude)| ==>
      search(Selected(ea, search, exclude)[i].name) != exclude
  {
    var kept := Filter(Selects(search, exclude), ea.files);
    forall i | 0 <= i < |kept|
      ensures search(kept[i].name) != exclude
    {
      assert Selects(search, exclude)(kept[i]);
    }
  }

  /** The include and the exclude call of one pattern split the file list
      between them: every entry goes to exactly one. */
  lemma ArtifactsPartition(ea: EventArtifacts, search: string -> bool)
    ensures multiset(Filter(Selects(search, false), ea.files)) +
            multiset(Filter(Selects(search, true), ea.files)) == multiset(ea.files)
    ensures |Selected(ea, search, false)| + |Selected(ea, search, true)| == |ea.files|
  {
    FilterPartition(Matches(search), ea.files);
    var a := Filter(Selects(search, false), ea.files);
    var b := Filter(Selects(search, true), ea.files);
    assert |multiset(a) + multiset(b)| == |multiset(ea.files)|;
  }

  /** Each call yields the entries in list order. */
  lemma ArtifactsInOrder(ea: EventArtifacts, search: string -> bool, exclude: bool)
    ensures IsSubsequence(Filter(Selects(search, exclude), ea.files), ea.files)
  {
    FilterIsSubsequence(Selects(search, exclude), ea.files);
  }

  const ReportEventNames: seq<string> := ["report.json", "report.json.gz", "event.json", "event.json.gz"]

  /** Where `(^(report|event)\.json(\.gz)?$)` finds a match: `re.search` with
      `$` also matching just before a final newline. */
  predicate ReportOrEvent(name: string)
  {
    name in ReportEventNames ||
    (name != [] && name[|name| - 1] == '\n' && name[..|name| - 1] in ReportEventNames)
  }

  /** `EventArtifacts.artifacts_excl_report_event`. */
  method ArtifactsExclReportEvent(ea: EventArtifacts) returns (r: seq<Artifact>)
    ensures r == Selected(ea, ReportOrEvent, true)
    ensures forall i :: 0 <= i < |r| ==> r[i].name !in ReportEventNames
  {
    r := ArtifactsOf(ea, ReportOrEvent, true);
  }

  /** An entry is kept by `artifacts_excl_report_event` exactly when its name is
      not one of the report or event names: each other entry keeps its multiplicity. */
  lemma ExclReportEventExact(ea: EventArtifacts, f: FileEntry)
    ensures multiset(Filter(Selects(ReportOrEvent, true), ea.files))[f] ==
            if ReportOrEvent(f.name) then 0 else multiset(ea.files)[f]
  {
    FilterCount(Selects(ReportOrEvent, true), ea.files, f);
  }

  /** Whenever a report is present, `artifacts_excl_report_event` leaves out
      at least one entry. */
  lemma ReportIsExcluded(ea: EventArtifacts)
    requires HasReport(ea)
    ensures |Selected(ea, ReportOrEvent, true)| < |ea.files|
  {
    var i :| 0 <= i < |Filenames(ea)| && Filenames(ea)[i] in ["report.json.gz", "report.json"];
    var f := ea.files[i];
    assert ReportOrEvent(f.name);
    ArtifactsPartition(ea, ReportOrEvent);
    FilterCount(Selects(ReportOrEvent, false), ea.files, f);
    assert f in multiset(ea.files);
    assert |Filter(Selects(ReportOrEvent, false), ea.files)| > 0;
  }
}
