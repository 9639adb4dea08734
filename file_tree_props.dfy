/**
 * What `create_json_file_tree` guarantees about the files it writes: how a
 * key becomes a directory, what each file holds, where and in which order the
 * files are written, and how a failure in one frame is contained.
 */
module FileTreeProps {
  import opened JsonValue
  import opened Disk
  import opened FileTree

  /** The keys the walk adds to a node's dict on top of its leaves. */
  const Injected: set<string> := {"service", "finding", "account_id", "timestamp"}

  /** What a dict `d.get(k)` of the leaves yields, given what the full dict yields. */
  function LeafValue(o: Option<Json>): Option<Json> {
    if o.Some? && !o.value.JObject? then o else None
  }

  // ---------------------------------------------------------------------
  // Segments

  /**
   * A segment is the key with one leading `/` removed, character by
   * character `:` turned into `_` and `*` into `-`; every other character
   * is kept in place.
   */
  lemma SegmentChars(key: string)
    requires key != ""
    ensures var stripped := if key[0] == '/' then key[1..] else key;
      var seg := Segment(key).value;
      |seg| == |stripped| && forall i :: 0 <= i < |seg| ==> seg[i] == SafeChar(stripped[i])
  {
    var stripped := if key[0] == '/' then key[1..] else key;
    var once := Strings.Replace(stripped, ':', '_');
    assert |once| == |stripped|;
    assert forall i :: 0 <= i < |stripped| ==> once[i] == if stripped[i] == ':' then '_' else stripped[i];
  }

  /** Only the first `/` is dropped: a key `//x` keeps one. */
  lemma SegmentStripsOneSlash()
    ensures Segment("//x") == Some("/x")
  {
    assert "//x"[1..] == "/x";
    Strings.ReplaceAbsent("/x", ':', '_');
    Strings.ReplaceAbsent("/x", '*', '-');
  }

  /**
   * Sanitisation is not injective: distinct sibling keys can name the same
   * directory, whose files then share one path.
   */
  lemma SegmentCollision(a: string, b: string)
    requires a != "" && a[0] != '/'
    ensures Segment(a + ":" + b) == Segment(a + "_" + b)
  {
    assert (a + ":" + b)[0] == a[0] && (a + "_" + b)[0] == a[0];
    Strings.ReplaceAppend(a + ":", b, ':', '_');
    Strings.ReplaceAppend(a, ":", ':', '_');
    Strings.ReplaceAppend(a + "_", b, ':', '_');
    Strings.ReplaceAppend(a, "_", ':', '_');
    assert Strings.Replace(":", ':', '_') == "_" == Strings.Replace("_", ':', '_');
  }

  /** A key with a leading `/` and the same key without it name the same directory. */
  lemma SegmentSlashCollision(key: string)
    requires key != "" && key[0] != '/'
    ensures Segment("/" + key) == Segment(key)
  {
    assert ("/" + key)[1..] == key;
  }

  // ---------------------------------------------------------------------
  // The dict written for one node

  /** Every leaf is found in the leaves with its own value; a dict-valued entry is not. */
  lemma {:induction false} LeavesLookup(fields: Fields, k: string)
    requires UniqueKeys(fields)
    ensures Lookup(Leaves(fields), k) == LeafValue(Lookup(fields, k))
    decreases |fields|
  {
    if fields != [] {
      var n := |fields| - 1;
      var front, last := fields[..n], fields[n];
      var tail := if last.1.JObject? then [] else [last];
      assert UniqueKeys(front);
      LeavesLookup(front, k);
      assert Lookup(fields, k) == if Lookup(front, k).Some? then Lookup(front, k) else Lookup([last], k) by {
        assert fields == front + [last];
        LookupAppend(front, [last], k);
      }
      assert Lookup(Leaves(fields), k) == if Lookup(Leaves(front), k).Some? then Lookup(Leaves(front), k) else Lookup(tail, k) by {
        LookupAppend(Leaves(front), tail, k);
      }
      if k == last.0 {
        LastKeyFresh(fields);
      }
    }
  }

  /** In a dict the last key does not occur before it. */
  lemma LastKeyFresh(fields: Fields)
    requires UniqueKeys(fields) && fields != []
    ensures Lookup(fields[..|fields| - 1], fields[|fields| - 1].0) == None
  {
  }

  /** Keys the walk does not inject keep the value the leaves give them. */
  lemma MetadataKeepsLeaves(leaves: Fields, path: Path, ctx: RunContext, k: string)
    requires PathIndexable(path) && k !in Injected
    ensures Lookup(Metadata(leaves, path, ctx).value, k) == Lookup(leaves, k)
  {
    var m := leaves;
    if path[|path| - 2] == "findings" {
      PutLookup(leaves, "service", JStr(path[|path| - 3]), k);
      m := Put(leaves, "service", JStr(path[|path| - 3]));
      PutLookup(m, "finding", JStr(path[|path| - 1]), k);
      m := Put(m, "finding", JStr(path[|path| - 1]));
    }
    if |m| > 0 {
      PutLookup(m, "account_id", ctx.accountId, k);
      PutLookup(Put(m, "account_id", ctx.accountId), "timestamp", JStr(ctx.timestamp), k);
    }
  }

  /**
   * A node's file holds each of its non-dict entries unchanged and none of
   * its dict-valued entries, except under the four injected keys.
   */
  lemma NodeFileLeaves(node: Json, path: Path, ctx: RunContext, k: string)
    requires node.JObject? && UniqueKeys(node.fields) && PathIndexable(path) && k !in Injected
    ensures Lookup(Metadata(Leaves(node.fields), path, ctx).value, k) == LeafValue(Lookup(node.fields, k))
  {
    MetadataKeepsLeaves(Leaves(node.fields), path, ctx, k);
    LeavesLookup(node.fields, k);
  }

  /**
   * `service` and `finding` are set, to the third-to-last and last segment,
   * exactly when the second-to-last segment is `findings`; otherwise both
   * keep what the leaves hold.
   */
  lemma MetadataFindings(leaves: Fields, path: Path, ctx: RunContext)
    requires PathIndexable(path)
    ensures var m := Metadata(leaves, path, ctx).value;
      path[|path| - 2] == "findings" ==>
        Lookup(m, "service") == Some(JStr(path[|path| - 3])) && Lookup(m, "finding") == Some(JStr(path[|path| - 1]))
    ensures var m := Metadata(leaves, path, ctx).value;
      path[|path| - 2] != "findings" ==>
        Lookup(m, "service") == Lookup(leaves, "service") && Lookup(m, "finding") == Lookup(leaves, "finding")
  {
    if path[|path| - 2] == "findings" {
      var m1 := Put(leaves, "service", JStr(path[|path| - 3]));
      var m2 := Put(m1, "finding", JStr(path[|path| - 1]));
      PutLookup(leaves, "service", JStr(path[|path| - 3]), "service");
      PutLookup(m1, "finding", JStr(path[|path| - 1]), "service");
      PutLookup(m1, "finding", JStr(path[|path| - 1]), "finding");
      StampKeeps(m2, ctx, "service");
      StampKeeps(m2, ctx, "finding");
    } else {
      StampKeeps(leaves, ctx, "service");
      StampKeeps(leaves, ctx, "finding");
    }
  }

  /**
   * The file's dict is empty exactly when the node has no leaves and is not
   * under `findings`; when it is not empty it carries the run's account id
   * and timestamp.
   */
  lemma MetadataStamp(leaves: Fields, path: Path, ctx: RunContext)
    requires PathIndexable(path)
    ensures var m := Metadata(leaves, path, ctx).value;
      m == [] <==> leaves == [] && path[|path| - 2] != "findings"
    ensures var m := Metadata(leaves, path, ctx).value;
      m != [] ==> Lookup(m, "account_id") == Some(ctx.accountId) && Lookup(m, "timestamp") == Some(JStr(ctx.timestamp))
  {
    var pre := if path[|path| - 2] == "findings" then
        Put(Put(leaves, "service", JStr(path[|path| - 3])), "finding", JStr(path[|path| - 1]))
      else leaves;
    assert Metadata(leaves, path, ctx).value == Stamp(pre, ctx);
    if |pre| > 0 {
      var m1 := Put(pre, "account_id", ctx.accountId);
      PutLookup(pre, "account_id", ctx.accountId, "account_id");
      PutLookup(m1, "timestamp", JStr(ctx.timestamp), "account_id");
      PutLookup(m1, "timestamp", JStr(ctx.timestamp), "timestamp");
    }
  }

  /** The file's dict is a dict: its keys are unique. */
  lemma MetadataUnique(leaves: Fields, path: Path, ctx: RunContext)
    requires PathIndexable(path) && UniqueKeys(leaves)
    ensures UniqueKeys(Metadata(leaves, path, ctx).value)
  {
    var m := leaves;
    if path[|path| - 2] == "findings" {
      PutUnique(leaves, "service", JStr(path[|path| - 3]));
      m := Put(leaves, "service", JStr(path[|path| - 3]));
      PutUnique(m, "finding", JStr(path[|path| - 1]));
      m := Put(m, "finding", JStr(path[|path| - 1]));
    }
    if |m| > 0 {
      PutUnique(m, "account_id", ctx.accountId);
      PutUnique(Put(m, "account_id", ctx.accountId), "timestamp", JStr(ctx.timestamp));
    }
  }

  /** Stamping leaves keys other than the two stamped ones alone. */
  lemma StampKeeps(m: Fields, ctx: RunContext, k: string)
    requires k != "account_id" && k != "timestamp"
    ensures Lookup(Stamp(m, ctx), k) == Lookup(m, k)
  {
    if |m| > 0 {
      PutLookup(m, "account_id", ctx.accountId, k);
      PutLookup(Put(m, "account_id", ctx.accountId), "timestamp", JStr(ctx.timestamp), k);
    }
  }

  // ---------------------------------------------------------------------
  // Where the files go

  /** The injected fields every written file carries, read off its own directory. */
  predicate FileShape(f: TreeFile, ctx: RunContext) {
    PathIndexable(f.dir)
    && (f.dir[|f.dir| - 2] == "findings" ==>
          Lookup(f.metadata, "service") == Some(JStr(f.dir[|f.dir| - 3]))
          && Lookup(f.metadata, "finding") == Some(JStr(f.dir[|f.dir| - 1])))
    && (f.metadata != [] ==>
          Lookup(f.metadata, "account_id") == Some(ctx.accountId)
          && Lookup(f.metadata, "timestamp") == Some(JStr(ctx.timestamp)))
  }

  /** A file written below `path`, named after the directory it is in. */
  predicate BelowFile(f: TreeFile, path: Path, ctx: RunContext) {
    path < f.dir && f.name == f.dir[|f.dir| - 1] + ".json" && FileShape(f, ctx)
  }

  /** The node's own file: written at `path` and named after `filename`. */
  lemma OwnFileShape(leaves: Fields, path: Path, filename: string, ctx: RunContext)
    ensures forall f :: f in OwnFile(leaves, path, filename, ctx) ==>
      f.dir == path && f.name == filename + ".json" && FileShape(f, ctx)
  {
    if PathIndexable(path) && ctx.mayWrite(path, filename + ".json") {
      MetadataFindings(leaves, path, ctx);
      MetadataStamp(leaves, path, ctx);
      var f := TreeFile(path, filename + ".json", Metadata(leaves, path, ctx).value);
      assert FileShape(f, ctx);
      assert OwnFile(leaves, path, filename, ctx) == [f];
    } else {
      assert OwnFile(leaves, path, filename, ctx) == [];
    }
  }

  /**
   * Every file a call writes lies in its directory or below it; the one in
   * its directory is `<filename>.json`, each other one is named after its
   * own directory; and each carries the injected fields its directory calls
   * for.
   */
  lemma {:induction false} NodeWritesShape(node: Json, path: Path, filename: string, ctx: RunContext)
    requires node.JObject?
    ensures forall f :: f in NodeWrites(node, path, filename, ctx) ==>
      (f.dir == path && f.name == filename + ".json" && FileShape(f, ctx)) || BelowFile(f, path, ctx)
    decreases node, 1, 0, 0
  {
    var n := Reach(node.fields);
    SubtreeWritesShape(node, 0, n, path, ctx);
    OwnFileShape(Leaves(node.fields), path, filename, ctx);
  }

  /** The files of the recursive calls lie strictly below the node's directory. */
  lemma {:induction false} SubtreeWritesShape(node: Json, lo: nat, hi: nat, path: Path, ctx: RunContext)
    requires node.JObject? && lo <= hi <= |node.fields|
    ensures forall f :: f in SubtreeWrites(node, lo, hi, path, ctx) ==> BelowFile(f, path, ctx)
    decreases node, 0, hi, 1
  {
    if hi != lo {
      SubtreeWritesShape(node, lo, hi - 1, path, ctx);
      EntryWritesShape(node, hi - 1, path, ctx);
    }
  }

  /** The files of one recursive call lie below the node's directory. */
  lemma {:induction false} EntryWritesShape(node: Json, i: nat, path: Path, ctx: RunContext)
    requires node.JObject? && i < |node.fields|
    ensures forall f :: f in EntryWrites(node, i, path, ctx) ==> BelowFile(f, path, ctx)
    decreases node, 0, i + 1, 0
  {
    var (key, value) := node.fields[i];
    if value.JObject? && key != "" {
      assert node.fields[i] in node.fields;
      var seg := Segment(key).value;
      NodeWritesShape(value, path + [seg], seg, ctx);
      forall f | f in EntryWrites(node, i, path, ctx)
        ensures BelowFile(f, path, ctx)
      {
        assert path + [seg] <= f.dir;
        assert path < f.dir by {
          assert f.dir[..|path|] == (path + [seg])[..|path|];
        }
      }
    }
  }

  /**
   * Post-order: a call writes its own file last, after everything its
   * children write, and writes nothing else in its own directory. Whether
   * that file is written depends only on this frame finishing its loop,
   * indexing its path and being allowed to write, never on what the
   * children's calls did.
   */
  lemma NodeFileLast(node: Json, path: Path, filename: string, ctx: RunContext)
    requires node.JObject?
    ensures var w := NodeWrites(node, path, filename, ctx);
      forall i :: 0 <= i < |w| && w[i].dir == path ==> i == |w| - 1
    ensures var w := NodeWrites(node, path, filename, ctx);
      (w != [] && w[|w| - 1].dir == path) <==>
        (Reach(node.fields) == |node.fields| && PathIndexable(path) && ctx.mayWrite(path, filename + ".json"))
    ensures var w := NodeWrites(node, path, filename, ctx);
      w != [] && w[|w| - 1].dir == path ==>
        w[|w| - 1] == TreeFile(path, filename + ".json", Metadata(Leaves(node.fields), path, ctx).value)
  {
    var n := Reach(node.fields);
    var sub := SubtreeWrites(node, 0, n, path, ctx);
    var own := if n < |node.fields| then [] else OwnFile(Leaves(node.fields), path, filename, ctx);
    var w := NodeWrites(node, path, filename, ctx);
    assert w == sub + own;
    SubtreeWritesShape(node, 0, n, path, ctx);
    forall i | 0 <= i < |sub|
      ensures w[i].dir != path
    {
      assert w[i] == sub[i] && sub[i] in sub;
    }
  }

  /**
   * A dict-valued entry with an empty key ends its frame: the node's own
   * file and the entries after it are skipped, and only what came before
   * it is written.
   */
  lemma EmptyKeyStopsFrame(node: Json, i: nat, path: Path, filename: string, ctx: RunContext)
    requires node.JObject? && i < |node.fields| && BadBranch(node.fields[i])
    requires forall j :: 0 <= j < i ==> !BadBranch(node.fields[j])
    ensures NodeWrites(node, path, filename, ctx) == SubtreeWrites(node, 0, i, path, ctx)
  {
    assert Reach(node.fields) == i;
  }

  // ---------------------------------------------------------------------
  // Isolation of sibling subtrees

  /** The calls for entries `lo` to `hi - 1` are those for `lo` to `mid - 1` followed by those for `mid` to `hi - 1`. */
  lemma {:induction false} SubtreeWritesSplit(node: Json, lo: nat, mid: nat, hi: nat, path: Path, ctx: RunContext)
    requires node.JObject? && lo <= mid <= hi <= |node.fields|
    ensures SubtreeWrites(node, lo, hi, path, ctx) == SubtreeWrites(node, lo, mid, path, ctx) + SubtreeWrites(node, mid, hi, path, ctx)
    decreases hi
  {
    if hi == mid {
      assert SubtreeWrites(node, mid, hi, path, ctx) == [];
    } else {
      SubtreeWritesSplit(node, lo, mid, hi - 1, path, ctx);
      var a, b, c := SubtreeWrites(node, lo, mid, path, ctx), SubtreeWrites(node, mid, hi - 1, path, ctx), EntryWrites(node, hi - 1, path, ctx);
      assert a + b + c == a + (b + c);
    }
  }

  /** The calls for a range of entries depend on those entries only. */
  lemma {:induction false} SubtreeWritesSame(node: Json, node': Json, lo: nat, hi: nat, path: Path, ctx: RunContext)
    requires node.JObject? && node'.JObject? && lo <= hi <= |node.fields| && hi <= |node'.fields|
    requires forall j :: lo <= j < hi ==> node.fields[j] == node'.fields[j]
    ensures SubtreeWrites(node, lo, hi, path, ctx) == SubtreeWrites(node', lo, hi, path, ctx)
    decreases hi
  {
    if hi != lo {
      SubtreeWritesSame(node, node', lo, hi - 1, path, ctx);
      assert EntryWrites(node, hi - 1, path, ctx) == EntryWrites(node', hi - 1, path, ctx);
    }
  }

  /** What a call writes after the block of entry `j`: the later siblings' files, then its own. */
  function LaterWrites(node: Json, j: nat, path: Path, filename: string, ctx: RunContext): seq<TreeFile>
    requires node.JObject? && j < Reach(node.fields)
  {
    var n := Reach(node.fields);
    SubtreeWrites(node, j + 1, n, path, ctx) + (if n < |node.fields| then [] else OwnFile(Leaves(node.fields), path, filename, ctx))
  }

  /** A call's files split after entry `j`: those of entries up to `j`, then the later ones. */
  lemma NodeWritesAround(node: Json, j: nat, path: Path, filename: string, ctx: RunContext)
    requires node.JObject? && j < Reach(node.fields)
    ensures NodeWrites(node, path, filename, ctx) == SubtreeWrites(node, 0, j + 1, path, ctx) + LaterWrites(node, j, path, filename, ctx)
  {
    var n := Reach(node.fields);
    var own := if n < |node.fields| then [] else OwnFile(Leaves(node.fields), path, filename, ctx);
    var a, c := SubtreeWrites(node, 0, j + 1, path, ctx), SubtreeWrites(node, j + 1, n, path, ctx);
    SubtreeWritesSplit(node, 0, j + 1, n, path, ctx);
    assert a + c + own == a + (c + own);
  }

  /**
   * Replacing the dict of one processed child by any other dict changes that
   * child's block of files only: the siblings before and after it and the
   * node's own file are written exactly as before, whatever the child's
   * subtree does, including failing entirely.
   */
  lemma ChildIsolated(node: Json, j: nat, other: Json, path: Path, filename: string, ctx: RunContext)
    requires node.JObject? && j < Reach(node.fields) && node.fields[j].1.JObject? && other.JObject?
    ensures var node' := JObject(node.fields[j := (node.fields[j].0, other)]);
      j < Reach(node'.fields)
      && NodeWrites(node, path, filename, ctx) ==
        SubtreeWrites(node, 0, j, path, ctx) + EntryWrites(node, j, path, ctx) + LaterWrites(node, j, path, filename, ctx)
      && NodeWrites(node', path, filename, ctx) ==
        SubtreeWrites(node, 0, j, path, ctx) + EntryWrites(node', j, path, ctx) + LaterWrites(node, j, path, filename, ctx)
  {
    var fields := node.fields;
    var fields' := fields[j := (fields[j].0, other)];
    var node' := JObject(fields');
    ReachSame(fields, fields', 0);
    assert fields[0..] == fields && fields'[0..] == fields';
    LeavesSame(fields, fields', |fields|);
    assert fields[..|fields|] == fields && fields'[..|fields|] == fields';
    var n := Reach(fields);
    NodeWritesAround(node, j, path, filename, ctx);
    NodeWritesAround(node', j, path, filename, ctx);
    SubtreeWritesSame(node, node', 0, j, path, ctx);
    SubtreeWritesSame(node, node', j + 1, n, path, ctx);
  }

  /** Two lists of entries that differ only in which dict a dict-valued entry holds stop at the same place. */
  lemma {:induction false} ReachSame(fields: Fields, fields': Fields, k: nat)
    requires |fields| == |fields'| && k <= |fields|
    requires forall j :: 0 <= j < |fields| ==> fields[j].0 == fields'[j].0 && fields[j].1.JObject? == fields'[j].1.JObject?
    ensures Reach(fields[k..]) == Reach(fields'[k..])
    decreases |fields| - k
  {
    if k < |fields| {
      ReachSame(fields, fields', k + 1);
      assert fields[k..][1..] == fields[k + 1..];
      assert fields'[k..][1..] == fields'[k + 1..];
    }
  }

  /** ... and have the same leaves. */
  lemma {:induction false} LeavesSame(fields: Fields, fields': Fields, k: nat)
    requires |fields| == |fields'| && k <= |fields|
    requires forall j :: 0 <= j < |fields| ==> fields[j].1.JObject? == fields'[j].1.JObject?
    requires forall j :: 0 <= j < |fields| ==> !fields[j].1.JObject? ==> fields[j] == fields'[j]
    ensures Leaves(fields[..k]) == Leaves(fields'[..k])
  {
    if k > 0 {
      LeavesSame(fields, fields', k - 1);
      assert fields[..k][..k - 1] == fields[..k - 1];
      assert fields'[..k][..k - 1] == fields'[..k - 1];
    }
  }
}
