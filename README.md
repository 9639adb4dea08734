# ScoutSuite result encoders, modelled in Dafny

ScoutSuite saves the results of a cloud security scan through the encoders in
`ScoutSuite/output/result_encoder.py`:

- a JavaScript/JSON encoder writes the results as a text file whose first line
  is an optional header, and reads that file back by dropping the header;
- a SQLite encoder stores each top-level entry of the results as one record
  and reads the mapping back;
- a results file is also decomposed into a tree of small JSON files by
  `create_json_file_tree`, placed by `store_custom_format`. The intended
  place is `<results dir>/positka/<report name>/`. As the code is written,
  an absolute results directory loses its leading `/`, so the tree lands
  relative to the current directory (see "## Findings"). The operations
  follow the code as written (`AsWrittenTreeRoot`); the intended root is
  `TreeRoot`.

The decomposed tree is the heart of this model. Every nested dict is written
as its own `<name>.json`. The file holds the dict's non-dict entries (its
leaves) and four injected fields:
- `service` and `finding`, when the file sits in a directory under `findings`;
- `account_id` and `timestamp`, when the dict is not empty.

The model also covers:
- the sanitisation of the report name;
- the settings an encoder is created with;
- the deny-list of provider attributes that the JSON encoder strips in place
  before encoding an object.

Files:

| file | module | what it holds |
|---|---|---|
| `strings.dfy` | `Strings` | `str.replace` for one character |
| `json_value.dfy` | `JsonValue` | JSON values; dicts as ordered entry lists with `d.get` (`Lookup`) and `d[k] = v` (`Put`) |
| `disk.dfy` | `Disk` | the file system as two write logs: tree files and documents |
| `file_tree.dfy` | `FileTree` | `create_json_file_tree`: the walk specified as the list of files it writes (`NodeWrites`) and the method that performs it |
| `file_tree_props.dfy` | `FileTreeProps` | what the walk guarantees: segments, file contents, placement, post-order, error isolation |
| `custom_format.dfy` | `CustomFormat` | `store_custom_format` and where the tree root lies |
| `result_encoder.dfy` | `ResultEncoder` | `ScoutResultEncoder.__init__` and the report-name sanitisation |
| `json_encoder.dfy` | `JsonEncoder` | `ScoutJsonEncoder.default` on an object with an attribute dict |
| `sqlite_encoder.dfy` | `SqliteEncoder` | `SqlLiteEncoder.save_to_file` / `load_from_file` |
| `javascript_encoder.dfy` | `JavaScriptEncoder` | `JavaScriptEncoder.load_from_file` / `save_to_file` |

Paths are lists of segments, as `os.path.normpath(p).split(os.sep)` yields
them. An absolute path starts with the empty segment.

The run's environment comes in as parameters:
- the account id and timestamp;
- `mayWrite(dir, name)`: the overwrite prompt's answer, together with whether
  opening the file succeeds;
- for the encoders, whether the output could be opened.

## Model

| member | source | states |
|---|---|---|
| Strings.Replace | ScoutSuite/output/result_encoder.py:171-172 | `str.replace` of one character: same length; each occurrence replaced in place, every other character kept; the replaced character no longer occurs |
| JsonValue.PutLookup | ScoutSuite/output/result_encoder.py:176 | after `metadata[key] = value`, the key maps to the new value and every other key keeps its old value |
| JsonValue.PutUnique | ScoutSuite/output/result_encoder.py:176 | dict assignment keeps the keys unique |
| JsonValue.PutAllCopies | ScoutSuite/output/result_encoder.py:65-66 | assigning a dict's entries one by one into an empty mapping reproduces the dict, entries and order alike |
| FileTree.Segment | ScoutSuite/output/result_encoder.py:167-172 | a dict-valued key has a segment exactly when it is not empty (`key[0]` raises otherwise); the segment has no `:` or `*`; it is one shorter than the key exactly when the key starts with `/` |
| FileTree.Reach | ScoutSuite/output/result_encoder.py:165-167 | the loop gets through every entry before the first dict-valued entry with an empty key, and stops at that entry |
| FileTree.Leaves | ScoutSuite/output/result_encoder.py:165-176 | the collected metadata holds only non-dict entries, each taken from the dict |
| FileTree.Metadata | ScoutSuite/output/result_encoder.py:177-184 | the file's dict exists exactly when `path_array[-2]` (and `[-3]` under `findings`) can be evaluated |
| FileTree.CreateJsonFileTree | ScoutSuite/output/result_encoder.py:162-189 | the walk appends to the tree log exactly the files `NodeWrites` specifies, in that order |
| FileTree.WriteNodeFile | ScoutSuite/output/result_encoder.py:177-187 | the node's file step appends exactly its own file, or nothing when the path cannot be indexed or the file cannot be opened |
| FileTreeProps.SegmentChars | ScoutSuite/output/result_encoder.py:167-172 | a segment is the key with one leading `/` removed and each character mapped on its own: `:` to `_`, `*` to `-`, others kept |
| FileTreeProps.SegmentStripsOneSlash | ScoutSuite/output/result_encoder.py:167-170 | only one leading `/` is removed: `//x` becomes `/x` |
| FileTreeProps.SegmentCollision | ScoutSuite/output/result_encoder.py:171-173 | keys `a:b` and `a_b` name the same directory |
| FileTreeProps.SegmentSlashCollision | ScoutSuite/output/result_encoder.py:167-170 | keys `/k` and `k` name the same directory |
| FileTreeProps.LeavesLookup | ScoutSuite/output/result_encoder.py:164-176 | a key of the collected leaves maps to its value in the dict exactly when that value is not a dict; otherwise it is absent |
| FileTreeProps.MetadataKeepsLeaves | ScoutSuite/output/result_encoder.py:179-184 | the injection leaves every key outside `service`, `finding`, `account_id`, `timestamp` as the leaves have it |
| FileTreeProps.NodeFileLeaves | ScoutSuite/output/result_encoder.py:164-184 | a node's file holds each non-dict entry unchanged and no dict-valued entry, apart from the four injected keys |
| FileTreeProps.MetadataFindings | ScoutSuite/output/result_encoder.py:177-181 | when the second-to-last segment is `findings`, `service` is the third-to-last segment and `finding` the last; otherwise both keep what the leaves hold |
| FileTreeProps.MetadataStamp | ScoutSuite/output/result_encoder.py:179-184 | the file's dict is empty exactly when the node has no leaves and is not under `findings`; otherwise it carries the run's account id and timestamp |
| FileTreeProps.MetadataUnique | ScoutSuite/output/result_encoder.py:176-184 | the written dict has unique keys |
| FileTreeProps.OwnFileShape | ScoutSuite/output/result_encoder.py:177-187 | a node's own file lies in its directory, is named `<filename>.json` and carries the injected fields its path calls for |
| FileTreeProps.NodeWritesShape | ScoutSuite/output/result_encoder.py:162-189 | every file of a call lies in its directory or below; the one in its directory is `<filename>.json`; each other one is named after its own directory; all carry the injected fields |
| FileTreeProps.SubtreeWritesShape | ScoutSuite/output/result_encoder.py:165-174 | the files of the recursive calls lie strictly below the node's directory, each named after its last segment |
| FileTreeProps.NodeFileLast | ScoutSuite/output/result_encoder.py:165-187 | post-order: a node's file is the last file of its call and the only one in its directory; it is written exactly when the loop finished, the path can be indexed and the file can be opened, whatever the children did |
| FileTreeProps.EmptyKeyStopsFrame | ScoutSuite/output/result_encoder.py:163-167 | a dict-valued entry with an empty key ends the frame: later siblings and the node's own file are skipped |
| FileTreeProps.ChildIsolated | ScoutSuite/output/result_encoder.py:162-189 | replacing one processed child by any other dict changes only that child's block of files; earlier and later siblings and the node's own file are unchanged |
| ResultEncoder.SanitizeReportName | ScoutSuite/output/result_encoder.py:43 | both separators become `_`; no `/` or `\` remains; same length; other characters kept |
| ResultEncoder.SanitizeKeepsPlainName | ScoutSuite/output/result_encoder.py:43 | a name without separators is unchanged |
| ResultEncoder.SanitizeIdempotent | ScoutSuite/output/result_encoder.py:43 | sanitising twice equals sanitising once |
| ResultEncoder.NewSettings | ScoutSuite/output/result_encoder.py:40-46 | a non-empty report name is kept as its sanitised form, `None` and `""` as they are; the kept name is a separator-free segment of the same length; an absent or empty directory or timestamp falls back to the default or the current time |
| ResultEncoder.SettingsNameStable | ScoutSuite/output/result_encoder.py:41-43 | the report name an encoder keeps is unchanged by sanitising it again |
| JsonEncoder.Without | ScoutSuite/output/result_encoder.py:26-34 | the remaining attributes have none of the removed names |
| JsonEncoder.WithoutLookup | ScoutSuite/output/result_encoder.py:26-34 | removed names are gone; every other attribute keeps its value |
| JsonEncoder.WithoutTwice | ScoutSuite/output/result_encoder.py:26-33 | removing one set of names and then another removes their union |
| JsonEncoder.WithoutDeniedIdempotent | ScoutSuite/output/result_encoder.py:26-33 | stripping the deny-list a second time changes nothing |
| JsonEncoder.DeleteIfPresent | ScoutSuite/output/result_encoder.py:26-27 | `if hasattr(o, n): del o.n` removes exactly the name `n` |
| JsonEncoder.DeleteDenied | ScoutSuite/output/result_encoder.py:26-33 | the four guarded deletions in turn strip exactly the deny-list |
| JsonEncoder.PyObject.Default | ScoutSuite/output/result_encoder.py:20-36 | a datetime becomes its text, its attributes untouched; any other object loses the deny-listed attributes in place; it is then encoded as its attribute dict, or as its text when `vars` fails |
| CustomFormat.NonEmpty | ScoutSuite/output/result_encoder.py:155 | joining drops exactly the empty segments: a segment is in the result exactly when it is a non-empty part |
| CustomFormat.NonEmptyAppend | ScoutSuite/output/result_encoder.py:155 | dropping empty segments keeps the order of the others: it distributes over concatenation |
| CustomFormat.AsWrittenTreeRoot | ScoutSuite/output/result_encoder.py:150-155 | the root as written is always relative (no empty segment) and ends in `positka/<name>` for a non-empty name |
| CustomFormat.TreeRoot | ScoutSuite/output/result_encoder.py:150-155 | the intended root is absolute exactly when the results path is |
| CustomFormat.Join | ScoutSuite/output/result_encoder.py:155 | the intended join: the result is absolute exactly when the parts are, and has no other empty segment |
| CustomFormat.TreeRootBesideResults | ScoutSuite/output/result_encoder.py:150-155 | the tree root is the results file's directory, then `positka`, then the report name; the root frame can index its path |
| CustomFormat.AsWrittenAgreesWhenRelative | ScoutSuite/output/result_encoder.py:150-155 | for a relative results path, the join as written gives the intended root |
| CustomFormat.AsWrittenRootOfAbsolute | ScoutSuite/output/result_encoder.py:150-155 | for every absolute normalised results path, the root as written is the results directory without its leading `/`, then `positka/<name>`, and differs from the intended root |
| CustomFormat.AbsoluteRootLost | ScoutSuite/output/result_encoder.py:150-155 | for `/tmp/r.js` the join as written gives `tmp/positka/r`, while the intended root is `/tmp/positka/r` |
| CustomFormat.ReportTreeRoot | ScoutSuite/output/result_encoder.py:43 | with the sanitised report name, the root ends in `positka/<name>`, and that name holds no separator |
| CustomFormat.StoreCustomFormat | ScoutSuite/output/result_encoder.py:148-158 | writes the whole tree of `data` at the root as written (`AsWrittenTreeRoot`), named after the report; writes nothing without a report name |
| SqliteEncoder.SqliteStore.SaveToFile | ScoutSuite/output/result_encoder.py:59-67 | a refused prompt changes nothing; once the prompt is accepted the old content is gone: a failed open or a non-dict leaves the store empty, and an opened save of a dict leaves exactly its top-level entries |
| SqliteEncoder.SqliteStore.LoadFromFile | ScoutSuite/output/result_encoder.py:54-57 | loading returns the stored mapping |
| SqliteEncoder.SaveThenLoad | ScoutSuite/output/result_encoder.py:54-67 | saving a dict into a store and loading it back gives the dict, entry for entry |
| JavaScriptEncoder.LineEnd | ScoutSuite/output/result_encoder.py:103 | the first line ends at the first newline, or at the end of the text |
| JavaScriptEncoder.ReadLines | ScoutSuite/output/result_encoder.py:103 | `readlines` yields non-empty lines, each exactly one line, every one but the last ending in a newline |
| JavaScriptEncoder.JoinReadLines | ScoutSuite/output/result_encoder.py:103-106 | joining the lines `readlines` yields gives the text back |
| JavaScriptEncoder.LoadFromFile | ScoutSuite/output/result_encoder.py:99-107 | with a header, the JSON text is everything after the first line, and an empty file raises; without one, it is the whole text |
| JavaScriptEncoder.SavedText | ScoutSuite/output/result_encoder.py:114-117 | the saved text ends with the JSON text followed by a newline |
| JavaScriptEncoder.HeaderLineEnd | ScoutSuite/output/result_encoder.py:104-105 | a header line without a newline ends just after the newline that follows it |
| JavaScriptEncoder.HeaderRoundTrip | ScoutSuite/output/result_encoder.py:99-117 | loading a saved file gives back the JSON text and its newline: a one-line header is dropped exactly, and nothing is dropped without a header |
| JavaScriptEncoder.SaveToFile | ScoutSuite/output/result_encoder.py:109-126 | an opened save writes the header and JSON text as one document; for results it also writes the whole tree at the root as written (`AsWrittenTreeRoot`); an unopened save writes nothing |

## Left out

- Full `os.path.normpath` semantics are not modelled. A dict key whose segment
  is empty (the key `/`), is `.` or `..`, or contains a separator is treated
  as one path component. Python would instead collapse it or re-root the
  path.
- `create_json_file_tree` is modelled on dict data only. On its first call the
  data is always a decoded dict; the recursive calls receive dicts.
- The byte-level text of `json.dumps` is not modelled: indentation,
  separators, `sort_keys`, escaping. The JSON text is a parameter.
- `json.loads` parsing is not modelled. `to_dict` is taken as the identity on
  JSON values, and numbers are integers only.
- JavaScriptEncoder.LoadFromFile: returns the JSON text that would be handed
  to `json.loads`, not the parsed value.
- Universal-newline translation when reading in text mode is not modelled.
  Texts use `\n` line ends.
- The clock (`datetime.now`, `strftime`, `tzlocal`) is replaced by parameters.
  So is logging (`print_info`, `print_exception`).
- `get_filename`, `prompt_for_overwrite` and `DEFAULT_REPORT_DIRECTORY` are not
  part of this model. Their results are parameters:
  - the results path and header line;
  - the default directory;
  - `RunContext.mayWrite` and `mayOpen`, which combine the prompt's answer
    with whether opening succeeds;
  - for the SQLite store, the prompt's answer and whether opening succeeds,
    separately.

  `mayWrite` answers the same for the same directory and name every time it
  is asked.
- The tree log records every write in order. Two sibling keys that sanitise
  to the same segment write to the same path; the file on disk then holds the
  last write. Merging them is not modelled.
- JsonEncoder.PyObject.Default: attributes are the instance dict only.
  Class attributes are left out: `hasattr` sees them, but `del` on them
  raises. Encoding the attribute values recursively is left to `json.dumps`.
- SqliteEncoder.SqliteStore.SaveToFile: a failure of `os.remove` itself is
  not modelled; a failed open is taken to fail after the old file was
  removed, or where there was no old file.
- SqliteEncoder.SqliteStore.LoadFromFile: returns the stored records. Two
  library details are not modelled:
  - the `.data` attribute of the library object;
  - the library's reordering of a key that is re-assigned, which cannot
    happen here because the keys of a dict are unique.
- `JavaScriptEncoder.SaveToFile` takes `content.account_id` through the run
  context. The `AttributeError` it raises when the attribute is missing is not
  modelled; that error would skip the tree after the document is written.
  Exceptions raised by `json.dumps` are not modelled either.
- Concurrency, directory creation (`os.makedirs`) and file removal are folded
  into the write logs.

## Findings

| source | as written | input that shows it | evidently intended | confidence | as-written member | corrected member |
|---|---|---|---|---|---|---|
| ScoutSuite/output/result_encoder.py:155 | `os.path.join(*path_array)` joins the split of an absolute results path. The split's first element is empty, so `join` drops it and the tree root becomes relative to the current directory. | results path `/tmp/r.js`, report name `r`: the tree goes to `tmp/positka/r` | the tree placed beside the results file, at `/tmp/positka/r` | medium; not executed | CustomFormat.AsWrittenRootOfAbsolute | CustomFormat.TreeRootBesideResults |
