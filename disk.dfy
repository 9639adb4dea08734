/**
 * The part of the file system the encoders write to, kept as two write logs.
 * A path is the list of segments `os.path.normpath(p).split(os.sep)` yields;
 * an absolute path starts with the empty segment.
 */
module Disk {
  import opened JsonValue

  type Path = seq<string>

  /** One `<name>` file of the decomposed tree, written in directory `dir` with the dict `metadata`. */
  datatype TreeFile = TreeFile(dir: Path, name: string, metadata: Fields)

  /** One consolidated report file and the text printed into it. */
  datatype Document = Document(file: Path, text: string)

  class FileSystem {
    /** The tree files, in the order they were written. */
    var tree: seq<TreeFile>
    /** The consolidated documents, in the order they were written. */
    var documents: seq<Document>

    constructor ()
      ensures tree == [] && documents == []
    {
      tree := [];
      documents := [];
    }
  }
}
