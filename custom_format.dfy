/**
 * `store_custom_format`: where the decomposed tree of a results file is
 * placed. The tree root replaces the results file's own name by the
 * directory `positka` and a sub-directory named after the report.
 */
module CustomFormat {
  import opened JsonValue
  import opened Disk
  import opened FileTree
  import ResultEncoder

  /** The directory beside the results file that holds every decomposed tree. */
  const TreeDirName := "positka"

  /** The segments of a path with every empty one dropped. */
  function NonEmpty(parts: seq<string>): (r: Path)
    ensures |r| <= |parts|
    ensures forall s :: s in r <==> s in parts && s != ""
    ensures forall i :: 0 <= i < |r| ==> r[i] != ""
  {
    if parts == [] then []
    else (if parts[0] == "" then [] else [parts[0]]) + NonEmpty(parts[1..])
  }

  /** A path whose segments are all non-empty is kept as it is. */
  lemma {:induction false} NonEmptyKeeps(parts: seq<string>)
    requires forall i :: 0 <= i < |parts| ==> parts[i] != ""
    ensures NonEmpty(parts) == parts
  {
    if parts != [] {
      NonEmptyKeeps(parts[1..]);
    }
  }

  /** Dropping empty segments keeps the order: it distributes over concatenation. */
  lemma {:induction false} NonEmptyAppend(a: seq<string>, b: seq<string>)
    ensures NonEmpty(a + b) == NonEmpty(a) + NonEmpty(b)
  {
    if a == [] {
      assert a + b == b;
    } else {
      assert (a + b)[1..] == a[1..] + b;
      NonEmptyAppend(a[1..], b);
    }
  }

  /**
   * The path `os.path.join(*parts)` names, as written: an empty part adds
   * nothing, and that includes the empty first segment that marks an
   * absolute path, so the result is relative.
   */
  function JoinAsWritten(parts: seq<string>): (r: Path)
    ensures forall i :: 0 <= i < |r| ==> r[i] != ""
  {
    NonEmpty(parts)
  }

  /** The path joining the segments was meant to name: an absolute path stays absolute. */
  function Join(parts: seq<string>): (r: Path)
    ensures parts != [] && parts[0] == "" <==> r != [] && r[0] == ""
    ensures forall i :: 0 < i < |r| ==> r[i] != ""
  {
    if parts != [] && parts[0] == "" then [""] + NonEmpty(parts[1..]) else NonEmpty(parts)
  }

  /** The split results path with its last segment popped and `positka` and the report name appended. */
  function RootParts(configPath: Path, reportName: string): seq<string>
    requires |configPath| >= 1
  {
    configPath[..|configPath| - 1] + [TreeDirName, reportName]
  }

  /**
   * Where the tree is placed as the code is written: always a relative path,
   * ending in `positka/<name>` when the name is not empty.
   */
  function AsWrittenTreeRoot(configPath: Path, reportName: string): (r: Path)
    requires |configPath| >= 1
    ensures forall i :: 0 <= i < |r| ==> r[i] != ""
    ensures reportName != "" ==> |r| >= 2 && r[|r| - 2..] == [TreeDirName, reportName]
  {
    NonEmptyAppend(configPath[..|configPath| - 1], [TreeDirName, reportName]);
    JoinAsWritten(RootParts(configPath, reportName))
  }

  /** Where the tree was meant to be placed: beside the results file, absolute when the results path is. */
  function TreeRoot(configPath: Path, reportName: string): (r: Path)
    requires |configPath| >= 1
    ensures |configPath| >= 2 ==> (r != [] && r[0] == "" <==> configPath[0] == "")
  {
    Join(RootParts(configPath, reportName))
  }

  /** A normalised split path: only its first segment may be empty. */
  predicate Normalised(p: Path) {
    forall i :: 0 < i < |p| ==> p[i] != ""
  }

  /**
   * For a normalised results path and a non-empty report name the tree root
   * is the results file's directory, then `positka`, then the report name;
   * so the root frame can always index its path.
   */
  lemma TreeRootBesideResults(configPath: Path, reportName: string)
    requires |configPath| >= 1 && Normalised(configPath) && reportName != ""
    ensures TreeRoot(configPath, reportName) == configPath[..|configPath| - 1] + [TreeDirName, reportName]
    ensures PathIndexable(TreeRoot(configPath, reportName))
  {
    var parts := RootParts(configPath, reportName);
    if parts[0] == "" {
      NonEmptyKeeps(parts[1..]);
      assert [""] + parts[1..] == parts;
    } else {
      NonEmptyKeeps(parts);
    }
  }

  /** For a relative results path the code as written and the intent agree. */
  lemma AsWrittenAgreesWhenRelative(configPath: Path, reportName: string)
    requires |configPath| >= 1 && (|configPath| == 1 || configPath[0] != "")
    ensures AsWrittenTreeRoot(configPath, reportName) == TreeRoot(configPath, reportName)
  {
  }

  /**
   * For an absolute results path the code as written places the tree under
   * the current directory instead: `/tmp/r.js` with report `r` gives
   * `tmp/positka/r`, not `/tmp/positka/r`.
   */
  lemma AbsoluteRootLost()
    ensures AsWrittenTreeRoot(["", "tmp", "r.js"], "r") == ["tmp", TreeDirName, "r"]
    ensures TreeRoot(["", "tmp", "r.js"], "r") == ["", "tmp", TreeDirName, "r"]
  {
    var parts := RootParts(["", "tmp", "r.js"], "r");
    assert parts == ["", "tmp", TreeDirName, "r"];
    NonEmptyKeeps(parts[1..]);
    assert parts[1..] == ["tmp", TreeDirName, "r"];
  }

  /**
   * For every absolute results path the code as written drops the leading
   * empty segment: the tree goes to the results directory taken relative to
   * the current directory, then `positka`, then the report name.
   */
  lemma AsWrittenRootOfAbsolute(configPath: Path, reportName: string)
    requires |configPath| >= 2 && configPath[0] == "" && Normalised(configPath) && reportName != ""
    ensures AsWrittenTreeRoot(configPath, reportName) == configPath[1..|configPath| - 1] + [TreeDirName, reportName]
    ensures AsWrittenTreeRoot(configPath, reportName) != TreeRoot(configPath, reportName)
  {
    var parts := RootParts(configPath, reportName);
    assert parts == [""] + parts[1..];
    NonEmptyAppend([""], parts[1..]);
    NonEmptyKeeps(parts[1..]);
    assert parts[1..] == configPath[1..|configPath| - 1] + [TreeDirName, reportName];
  }

  /**
   * The report name the encoder was created with is already a single
   * segment, so the tree root ends in `positka/<name>` exactly.
   */
  lemma ReportTreeRoot(configPath: Path, rawName: string)
    requires |configPath| >= 1 && Normalised(configPath) && rawName != ""
    ensures var name := ResultEncoder.SanitizeReportName(rawName);
      TreeRoot(configPath, name) == configPath[..|configPath| - 1] + [TreeDirName, name]
      && '/' !in name && '\\' !in name
  {
    TreeRootBesideResults(configPath, ResultEncoder.SanitizeReportName(rawName));
  }

  /**
   * `store_custom_format(data, path, report_name, ...)`, as written: the
   * tree goes to `AsWrittenTreeRoot`. A missing report name makes
   * `os.path.join` raise, which is caught: nothing is written.
   */
  method StoreCustomFormat(fs: FileSystem, data: Json, configPath: Path, reportName: Option<string>, ctx: RunContext)
    requires |configPath| >= 1 && data.JObject? && WellFormed(data)
    modifies fs`tree
    ensures reportName.None? ==> fs.tree == old(fs.tree)
    ensures reportName.Some? ==>
      fs.tree == old(fs.tree) + NodeWrites(data, AsWrittenTreeRoot(configPath, reportName.value), reportName.value, ctx)
  {
    var pathArray := configPath;
    pathArray := pathArray[..|pathArray| - 1];
    pathArray := pathArray + [TreeDirName];
    if reportName.None? {
      return;
    }
    pathArray := pathArray + [reportName.value];
    assert pathArray == RootParts(configPath, reportName.value);
    var outputPath := JoinAsWritten(pathArray);
    CreateJsonFileTree(fs, data, outputPath, reportName.value, ctx);
  }
}
