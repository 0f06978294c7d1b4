/** The file system and the JSON serialiser that the two snippet stores use.

    Both stores read and write whole snippet documents. The serialiser
    (`comment-json`'s `parse`/`stringify`) is a parameter. The model only
    assumes that it is lawful: parsing what it printed gives the same
    document back, and the empty object `{}` parses to the empty document. */
module Files {
  import opened Records

  /** `cjson.parse` (`None` when it throws) and `cjson.stringify`. */
  datatype JsonCodec = JsonCodec(parse: string -> Option<Document>, stringify: Document -> string)

  const Empty: Document := []

  ghost predicate Lawful(json: JsonCodec) {
    (forall d: Document :: json.parse(json.stringify(d)) == Some(d))
    && json.parse("{}") == Some(Empty)
  }

  /** How a store operation ends: it wrote (or removed) its file and
      returned normally, it returned without touching any file, or it threw. */
  datatype Outcome = Done | Skipped | Crashed

  /** A file's text and its modification time in milliseconds. */
  datatype FileEntry = FileEntry(text: string, mtime: int)

  /** The files the extension reads and writes, by path. */
  class Disk {
    var files: map<string, FileEntry>

    constructor(initial: map<string, FileEntry>)
      ensures files == initial
    {
      files := initial;
    }

    /** `fs.writeFileSync`: the file gets `text` and the current time. */
    method Write(path: string, text: string, now: int)
      modifies this
      ensures files == old(files)[path := FileEntry(text, now)]
    {
      files := files[path := FileEntry(text, now)];
    }

    /** `fs.unlinkSync`: fails (throws) when there is no such file. */
    method Unlink(path: string) returns (ok: bool)
      modifies this
      ensures ok <==> path in old(files)
      ensures files == old(files) - {path}
    {
      ok := path in files;
      files := files - {path};
    }
  }
}
