/** The catalog's records and its database, seen from the service layer.
    The database is an oracle: each query's answer may depend on the calls
    made earlier in the same request (`Log`), which is how a tag created a
    moment ago can make a later `create_tag` fail as a duplicate. */
module Catalog {
  import opened Wrappers
  import opened Text

  /** Rust's `i32`, the type of row ids. */
  type i32 = x: int | -0x8000_0000 <= x < 0x8000_0000

  /** Rust's `i64`, the type of file sizes. */
  type i64 = x: int | -0x8000_0000_0000_0000 <= x < 0x8000_0000_0000_0000

  /** A `NaiveDateTime`, carried as the text its `to_string` gives. */
  datatype Timestamp = Timestamp(rendered: string)

  /** The insert payload of both front ends. */
  datatype FileInfo = FileInfo(name: string, identifier: string, size: i64, mimeType: string, tags: seq<string>)

  /** The columns an insert writes. */
  datatype NewFile = NewFile(name: string, identifier: string, size: i64, mimeType: string)

  /** A row of `store.file`. */
  datatype FileRow = FileRow(id: i32, name: string, identifier: string, size: i64, mimeType: string,
                             createdAt: Timestamp, updatedAt: Timestamp)

  /** A row of `store.tag`. */
  datatype TagRow = TagRow(id: i32, name: string, createdAt: Timestamp, updatedAt: Timestamp)

  /** A diesel error, by its display text. */
  datatype DbError = DbError(message: string)

  /** The text PostgreSQL puts in a unique-violation message. */
  const DuplicateKey := "duplicate key value"

  /** The duplicate test every layer applies to an error's text. */
  predicate IsDuplicate(e: DbError) {
    Contains(e.message, DuplicateKey)
  }

  /** The queries of the catalog's database layer. */
  datatype DbCall =
    | InsertFile(file: NewFile)
    | RemoveFileByIdentifier(identifier: string)
    | GetFileByIdentifier(identifier: string)
    | GetFiles
    | CreateTag(tagName: string)
    | RemoveTag(tagName: string)
    | LinkFileWithTag(fileId: string, tagName: string)
    | GetTags
    | GetTagsOfFile(fileId: string)
    | RemoveTagFromFile(fileId: string, tagName: string)
    | GetFilesTaggedWith(tagName: string)

  /** The queries already issued in the current request, oldest first. */
  type Log = seq<DbCall>

  /** The answer to each query, given what was issued before it. */
  datatype Database = Database(
    insertFile: (Log, NewFile) -> Result<i32, DbError>,
    removeFileByIdentifier: (Log, string) -> Result<(), DbError>,
    getFileByIdentifier: (Log, string) -> Result<FileRow, DbError>,
    getFiles: Log -> Result<seq<FileRow>, DbError>,
    createTag: (Log, string) -> Result<TagRow, DbError>,
    removeTag: (Log, string) -> Result<(), DbError>,
    linkFileWithTag: (Log, string, string) -> Result<nat, DbError>,
    getTags: Log -> Result<seq<TagRow>, DbError>,
    getTagsOfFile: (Log, string) -> Result<seq<TagRow>, DbError>,
    removeTagFromFile: (Log, string, string) -> Result<(), DbError>,
    getFilesTaggedWith: (Log, string) -> Result<seq<FileRow>, DbError>)

  /** How a service call ends, with the queries it issued, in order. */
  datatype Run<+T> = Run(outcome: Outcome<T>, calls: Log)

  /** The same run with its result passed through `f`; a panic stays a
      panic and the queries are kept. */
  function MapRun<T, U>(r: Run<T>, f: T -> U): (s: Run<U>)
    ensures s.calls == r.calls
    ensures s.outcome.Panicked? <==> r.outcome.Panicked?
    ensures r.outcome.Panicked? ==> s.outcome.message == r.outcome.message
    ensures r.outcome.Returned? ==> s.outcome.value == f(r.outcome.value)
  {
    match r.outcome
    case Panicked(m) => Run(Panicked(m), r.calls)
    case Returned(v) => Run(Returned(f(v)), r.calls)
  }

  /** The JSON bodies of the catalog's HTTP replies. */
  datatype Payload = FileList(files: seq<FileRow>) | OneFile(file: FileRow) | TagList(tags: seq<TagRow>) | OneTag(tag: TagRow)

  /** The names of tag rows, in row order. */
  function TagNames(rows: seq<TagRow>): (names: seq<string>)
    ensures |names| == |rows|
    ensures forall i :: 0 <= i < |rows| ==> names[i] == rows[i].name
  {
    if rows == [] then [] else [rows[0].name] + TagNames(rows[1..])
  }

  /** The names of file rows, in row order. */
  function FileNames(rows: seq<FileRow>): (names: seq<string>)
    ensures |names| == |rows|
    ensures forall i :: 0 <= i < |rows| ==> names[i] == rows[i].name
  {
    if rows == [] then [] else [rows[0].name] + FileNames(rows[1..])
  }
}
