/**
 * `JavaScriptEncoder`: results saved as a text file whose optional first
 * line is a header (a JavaScript assignment) followed by the JSON text, and
 * read back by dropping that header line.
 */
module JavaScriptEncoder {
  import opened JsonValue
  import opened Disk
  import opened FileTree
  import opened CustomFormat
  import ResultEncoder

  /** The length of the first line of `t`, its `\n` included. */
  function LineEnd(t: string): (n: nat)
    ensures n <= |t|
    ensures t != "" ==> n > 0
    ensures forall i :: 0 <= i < n - 1 ==> t[i] != '\n'
    ensures n < |t| ==> t[n - 1] == '\n'
  {
    if t == "" then 0
    else if t[0] == '\n' then 1
    else 1 + LineEnd(t[1..])
  }

  /** The first line of a text is a whole line of its own. */
  lemma {:induction false} LineEndPrefix(t: string)
    ensures LineEnd(t[..LineEnd(t)]) == LineEnd(t)
    decreases |t|
  {
    if t != "" && t[0] != '\n' {
      assert t[..LineEnd(t)][1..] == t[1..][..LineEnd(t[1..])];
      LineEndPrefix(t[1..]);
    }
  }

  /**
   * `f.readlines()`: the lines of `t`, each keeping its `\n`. No line is
   * empty, each is exactly one line, and every line but the last ends in
   * `\n`.
   */
  function ReadLines(t: string): (r: seq<string>)
    ensures forall i :: 0 <= i < |r| ==> r[i] != ""
    ensures forall i :: 0 <= i < |r| ==> LineEnd(r[i]) == |r[i]|
    ensures forall i :: 0 <= i < |r| - 1 ==> r[i][|r[i]| - 1] == '\n'
    decreases |t|
  {
    if t == "" then []
    else
      LineEndPrefix(t);
      [t[..LineEnd(t)]] + ReadLines(t[LineEnd(t)..])
  }

  /** `''.join(lines)`. */
  function JoinLines(lines: seq<string>): string {
    if lines == [] then "" else lines[0] + JoinLines(lines[1..])
  }

  /** Splitting a text into lines and joining them gives the text back. */
  lemma {:induction false} JoinReadLines(t: string)
    ensures JoinLines(ReadLines(t)) == t
    decreases |t|
  {
    if t != "" {
      var n := LineEnd(t);
      JoinReadLines(t[n..]);
      assert t[..n] + t[n..] == t;
    }
  }

  /**
   * `load_from_file(file_type, file_path, first_line)` on a file holding
   * `text`: with a header expected, the first line is popped, which raises
   * on an empty file; the rest is the JSON text handed to `json.loads`.
   */
  method LoadFromFile(text: string, firstLine: Option<string>) returns (r: Result<string>)
    ensures r.Err? <==> ResultEncoder.Truthy(firstLine) && text == ""
    ensures r.Ok? && ResultEncoder.Truthy(firstLine) ==> r.value == text[LineEnd(text)..]
    ensures r.Ok? && !ResultEncoder.Truthy(firstLine) ==> r.value == text
  {
    var jsonPayload := ReadLines(text);
    if ResultEncoder.Truthy(firstLine) {
      if jsonPayload == [] {
        return Err("pop from empty list");
      }
      jsonPayload := jsonPayload[1..];
    }
    JoinReadLines(text);
    if text != "" {
      JoinReadLines(text[LineEnd(text)..]);
    }
    r := Ok(JoinLines(jsonPayload));
  }

  /** The text `save_to_file` prints: the header line when there is one, then the JSON text, each ending in a newline. */
  function SavedText(firstLine: Option<string>, results: string): (t: string)
    ensures |t| > |results|
    ensures t[|t| - 1] == '\n' && t[|t| - 1 - |results|..|t| - 1] == results
  {
    (if ResultEncoder.Truthy(firstLine) then firstLine.value + "\n" else "") + results + "\n"
  }

  /**
   * Loading what was saved gives back the JSON text: a one-line header is
   * dropped exactly, and without a header nothing is dropped.
   */
  lemma {:induction false} HeaderRoundTrip(firstLine: Option<string>, results: string)
    requires ResultEncoder.Truthy(firstLine) ==> '\n' !in firstLine.value
    ensures var t := SavedText(firstLine, results);
      if ResultEncoder.Truthy(firstLine) then t != "" && t[LineEnd(t)..] == results + "\n" else t == results + "\n"
  {
    if ResultEncoder.Truthy(firstLine) {
      var h := firstLine.value;
      var t := SavedText(firstLine, results);
      assert t == h + "\n" + (results + "\n");
      HeaderLineEnd(h, results + "\n");
      assert (h + "\n" + (results + "\n"))[|h| + 1..] == results + "\n";
    }
  }

  /** A line without `\n` followed by a newline ends right after that newline. */
  lemma {:induction false} HeaderLineEnd(h: string, rest: string)
    requires '\n' !in h
    ensures LineEnd(h + "\n" + rest) == |h| + 1
    decreases |h|
  {
    var t := h + "\n" + rest;
    if h != "" {
      assert t[1..] == h[1..] + "\n" + rest;
      HeaderLineEnd(h[1..], rest);
    }
  }

  /**
   * `save_to_file(content, file_type, ...)`. `mayOpen` is whether the
   * overwrite prompt and the opening succeed; when they fail nothing is
   * written. `results` is the JSON text of `content` and `data` what
   * `json.loads` makes of it; a results file is also decomposed into a tree,
   * with the run's account id and timestamp in `ctx`.
   */
  method SaveToFile(fs: FileSystem, data: Json, results: string, fileType: string, configPath: Path,
                    firstLine: Option<string>, reportName: Option<string>, mayOpen: bool, ctx: RunContext)
    requires |configPath| >= 1
    requires fileType == "RESULTS" ==> data.JObject? && WellFormed(data)
    modifies fs
    ensures !mayOpen ==> fs.documents == old(fs.documents) && fs.tree == old(fs.tree)
    ensures mayOpen ==> fs.documents == old(fs.documents) + [Document(configPath, SavedText(firstLine, results))]
    ensures mayOpen && fileType == "RESULTS" && reportName.Some? ==>
      fs.tree == old(fs.tree) + NodeWrites(data, AsWrittenTreeRoot(configPath, reportName.value), reportName.value, ctx)
    ensures mayOpen && (fileType != "RESULTS" || reportName.None?) ==> fs.tree == old(fs.tree)
  {
    if !mayOpen {
      return;
    }
    var text := "";
    if ResultEncoder.Truthy(firstLine) {
      text := text + firstLine.value + "\n";
    }
    text := text + results + "\n";
    assert text == SavedText(firstLine, results);
    fs.documents := fs.documents + [Document(configPath, text)];
    if fileType == "RESULTS" {
      StoreCustomFormat(fs, data, configPath, reportName, ctx);
    }
  }
}
