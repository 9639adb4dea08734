/**
 * `create_json_file_tree`: the decomposition of one nested dict into a tree of
 * small JSON files, one per dict, each holding that dict's non-dict entries
 * plus injected metadata.
 *
 * The walk is specified by `NodeWrites`, the list of files one call writes in
 * order; the method `CreateJsonFileTree` performs the walk on a `FileSystem`
 * and is proved to append exactly that list.
 */
module FileTree {
  import opened JsonValue
  import opened Strings
  import opened Disk

  /**
   * What the run supplies to every call: the account id and timestamp that are
   * injected, and the answer of the overwrite prompt together with the success
   * of opening the file, for a file `name` in directory `dir`.
   */
  datatype RunContext = RunContext(accountId: Json, timestamp: string, mayWrite: (Path, string) -> bool)

  /**
   * The path segment a dict-valued key becomes: one leading `/` dropped, then
   * `:` replaced by `_` and `*` by `-`. An empty key has no segment: `key[0]`
   * raises IndexError.
   */
  function Segment(key: string): (r: Option<string>)
    ensures r.None? <==> key == ""
    ensures r.Some? ==> ':' !in r.value && '*' !in r.value
    ensures r.Some? ==> |r.value| == |key| - (if key[0] == '/' then 1 else 0)
  {
    if key == "" then None
    else
      var stripped := if key[0] == '/' then key[1..] else key;
      Some(Replace(Replace(stripped, ':', '_'), '*', '-'))
  }

  /** The character a key character becomes in a segment. */
  function SafeChar(c: char): char {
    if c == ':' then '_' else if c == '*' then '-' else c
  }

  /** A dict-valued entry whose key is empty: processing it raises. */
  predicate BadBranch(e: (string, Json)) {
    e.1.JObject? && e.0 == ""
  }

  /**
   * How many entries the loop over a dict gets through: all of them, or up to
   * the first dict-valued entry with an empty key.
   */
  function Reach(fields: Fields): (n: nat)
    ensures n <= |fields|
    ensures forall i :: 0 <= i < n ==> !BadBranch(fields[i])
    ensures n < |fields| ==> BadBranch(fields[n])
  {
    if fields == [] || BadBranch(fields[0]) then 0 else 1 + Reach(fields[1..])
  }

  /** The non-dict entries of a dict, in order: the leaves. */
  function Leaves(fields: Fields): (r: Fields)
    ensures forall i :: 0 <= i < |r| ==> !r[i].1.JObject? && r[i] in fields
  {
    if fields == [] then []
    else
      var last := fields[|fields| - 1];
      Leaves(fields[..|fields| - 1]) + (if last.1.JObject? then [] else [last])
  }

  /** The injected account id and timestamp, added only to a non-empty dict. */
  function Stamp(m: Fields, ctx: RunContext): Fields {
    if |m| > 0 then Put(Put(m, "account_id", ctx.accountId), "timestamp", JStr(ctx.timestamp)) else m
  }

  /** `path_array[-2]`, and `path_array[-3]` when the former is `findings`, can be evaluated. */
  predicate PathIndexable(path: Path) {
    |path| >= 2 && (path[|path| - 2] == "findings" ==> |path| >= 3)
  }

  /**
   * The dict written for a node whose leaves are `leaves`, at `path`: the
   * leaves, then `service` and `finding` when the parent directory is
   * `findings`, then the stamp. None when indexing the path raises.
   */
  function Metadata(leaves: Fields, path: Path, ctx: RunContext): (r: Option<Fields>)
    ensures r.Some? <==> PathIndexable(path)
  {
    if |path| < 2 then None
    else if path[|path| - 2] == "findings" then
      if |path| < 3 then None
      else
        var m := Put(leaves, "service", JStr(path[|path| - 3]));
        Some(Stamp(Put(m, "finding", JStr(path[|path| - 1])), ctx))
    else Some(Stamp(leaves, ctx))
  }

  /** The node's own `<filename>.json`, when its metadata exists and the file may be written. */
  function OwnFile(leaves: Fields, path: Path, filename: string, ctx: RunContext): (r: seq<TreeFile>)
  {
    match Metadata(leaves, path, ctx)
    case None => []
    case Some(m) =>
      if ctx.mayWrite(path, filename + ".json") then [TreeFile(path, filename + ".json", m)] else []
  }

  /** The files one call on the dict `node` at `path` writes, in order. */
  function NodeWrites(node: Json, path: Path, filename: string, ctx: RunContext): seq<TreeFile>
    requires node.JObject?
    decreases node, 1, 0, 0
  {
    var n := Reach(node.fields);
    SubtreeWrites(node, 0, n, path, ctx) + (if n < |node.fields| then [] else OwnFile(Leaves(node.fields), path, filename, ctx))
  }

  /** The files the recursive calls for entries `lo` to `hi - 1` of `node` write, in order. */
  function SubtreeWrites(node: Json, lo: nat, hi: nat, path: Path, ctx: RunContext): seq<TreeFile>
    requires node.JObject? && lo <= hi <= |node.fields|
    decreases node, 0, hi, 1
  {
    if hi == lo then [] else SubtreeWrites(node, lo, hi - 1, path, ctx) + EntryWrites(node, hi - 1, path, ctx)
  }

  /** The files the recursive call for entry `i` writes: none unless its value is a dict. */
  function EntryWrites(node: Json, i: nat, path: Path, ctx: RunContext): seq<TreeFile>
    requires node.JObject? && i < |node.fields|
    decreases node, 0, i + 1, 0
  {
    var (key, value) := node.fields[i];
    assert node.fields[i] in node.fields;
    if value.JObject? then
      match Segment(key)
      case None => []
      case Some(seg) => NodeWrites(value, path + [seg], seg, ctx)
    else []
  }

  /**
   * `create_json_file_tree(data, path, filename, ...)`: recurse into every
   * dict-valued entry in order, collect the others, and write the node's own
   * file last. Every exception is caught in the frame that raised it, so a
   * raise ends only this call.
   */
  method CreateJsonFileTree(fs: FileSystem, data: Json, path: Path, filename: string, ctx: RunContext)
    requires data.JObject? && WellFormed(data)
    modifies fs`tree
    ensures fs.tree == old(fs.tree) + NodeWrites(data, path, filename, ctx)
    decreases data
  {
    var fields := data.fields;
    var metadata: Fields := [];
    ghost var start := fs.tree;
    var i := 0;
    while i < |fields|
      invariant i <= Reach(fields)
      invariant metadata == Leaves(fields[..i])
      invariant fs.tree == start + SubtreeWrites(data, 0, i, path, ctx)
    {
      var (key, value) := fields[i];
      if value.JObject? {
        var segment := Segment(key);
        if segment.None? {
          // key[0] raises IndexError: the rest of this frame is skipped
          NodeWritesSplit(data, path, filename, ctx);
          return;
        }
        BranchStep(data, i, path, ctx);
        CreateJsonFileTree(fs, value, path + [segment.value], segment.value, ctx);
        AppendAssoc(start, SubtreeWrites(data, 0, i, path, ctx), NodeWrites(value, path + [segment.value], segment.value, ctx));
      } else {
        LeafStep(data, i, path, ctx);
        metadata := Put(metadata, key, value);
      }
      i := i + 1;
    }
    assert fields[..i] == fields;
    WriteNodeFile(fs, metadata, path, filename, ctx);
    NodeWritesSplit(data, path, filename, ctx);
    AppendAssoc(start, SubtreeWrites(data, 0, i, path, ctx), OwnFile(metadata, path, filename, ctx));
  }

  /**
   * The end of one frame: inject `service` and `finding` when the parent
   * directory is `findings`, then the account id and timestamp when the dict
   * is not empty, and write `<filename>.json` if it may be written.
   */
  method WriteNodeFile(fs: FileSystem, leaves: Fields, path: Path, filename: string, ctx: RunContext)
    modifies fs`tree
    ensures fs.tree == old(fs.tree) + OwnFile(leaves, path, filename, ctx)
  {
    var metadata := leaves;
    if |path| < 2 {
      // path_array[-2] raises IndexError
      return;
    }
    if path[|path| - 2] == "findings" {
      if |path| < 3 {
        // path_array[-3] raises IndexError
        return;
      }
      metadata := Put(metadata, "service", JStr(path[|path| - 3]));
      metadata := Put(metadata, "finding", JStr(path[|path| - 1]));
    }
    if |metadata| > 0 {
      metadata := Put(metadata, "account_id", ctx.accountId);
      metadata := Put(metadata, "timestamp", JStr(ctx.timestamp));
    }
    var dataPath := filename + ".json";
    if ctx.mayWrite(path, dataPath) {
      fs.tree := fs.tree + [TreeFile(path, dataPath, metadata)];
    }
  }

  /** A dict-valued entry with a non-empty key: its call's files are added, the leaves stay. */
  lemma BranchStep(node: Json, i: nat, path: Path, ctx: RunContext)
    requires node.JObject? && WellFormed(node) && i < |node.fields| && i <= Reach(node.fields)
    requires node.fields[i].1.JObject? && node.fields[i].0 != ""
    ensures node.fields[i].1 < node && WellFormed(node.fields[i].1)
    ensures i + 1 <= Reach(node.fields)
    ensures Leaves(node.fields[..i + 1]) == Leaves(node.fields[..i])
    ensures SubtreeWrites(node, 0, i + 1, path, ctx) ==
      SubtreeWrites(node, 0, i, path, ctx) + NodeWrites(node.fields[i].1, path + [Segment(node.fields[i].0).value], Segment(node.fields[i].0).value, ctx)
  {
    assert node.fields[i] in node.fields;
    LeavesStep(node.fields, i);
  }

  /** A non-dict entry: it joins the leaves, and no file is written for it. */
  lemma LeafStep(node: Json, i: nat, path: Path, ctx: RunContext)
    requires node.JObject? && WellFormed(node) && i < |node.fields| && i <= Reach(node.fields)
    requires !node.fields[i].1.JObject?
    ensures i + 1 <= Reach(node.fields)
    ensures Put(Leaves(node.fields[..i]), node.fields[i].0, node.fields[i].1) == Leaves(node.fields[..i + 1])
    ensures SubtreeWrites(node, 0, i + 1, path, ctx) == SubtreeWrites(node, 0, i, path, ctx)
  {
    LeafKeysBefore(node.fields, i);
    PutAbsent(Leaves(node.fields[..i]), node.fields[i].0, node.fields[i].1);
    LeavesStep(node.fields, i);
  }

  /** Before entry `i`, no leaf collected so far has entry `i`'s key. */
  lemma LeafKeysBefore(fields: Fields, i: nat)
    requires UniqueKeys(fields) && i < |fields|
    ensures forall j :: 0 <= j < |Leaves(fields[..i])| ==> Leaves(fields[..i])[j].0 != fields[i].0
  {
    var m := Leaves(fields[..i]);
    forall j | 0 <= j < |m|
      ensures m[j].0 != fields[i].0
    {
      var k :| 0 <= k < i && fields[..i][k] == m[j];
      assert fields[k] == m[j];
    }
  }

  /** The leaves of one more entry. */
  lemma LeavesStep(fields: Fields, i: nat)
    requires i < |fields|
    ensures Leaves(fields[..i + 1]) == Leaves(fields[..i]) + (if fields[i].1.JObject? then [] else [fields[i]])
  {
    assert fields[..i + 1][..i] == fields[..i];
  }

  /** A call writes what its processed children write, then its own file if the loop finished. */
  lemma NodeWritesSplit(node: Json, path: Path, filename: string, ctx: RunContext)
    requires node.JObject?
    ensures Reach(node.fields) < |node.fields| ==> NodeWrites(node, path, filename, ctx) == SubtreeWrites(node, 0, Reach(node.fields), path, ctx)
    ensures Reach(node.fields) == |node.fields| ==>
      NodeWrites(node, path, filename, ctx) == SubtreeWrites(node, 0, |node.fields|, path, ctx) + OwnFile(Leaves(node.fields), path, filename, ctx)
  {
  }

  /** Concatenation of write logs is associative. */
  lemma AppendAssoc(a: seq<TreeFile>, b: seq<TreeFile>, c: seq<TreeFile>)
    ensures a + b + c == a + (b + c)
  {
  }
}
