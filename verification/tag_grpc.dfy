/** The catalog's gRPC tag service. Every handler trims its input before
    the domain layer sees it, so none of them panics; a tag in a reply is
    just its name. */
module TagGrpc {
  import opened Wrappers
  import opened Text
  import opened Catalog
  import opened Rpc
  import TagDomain
  import FileGrpc

  const TagNameCannotBeEmpty := "Tag name cannot be empty"
  const FileIdCannotBeEmpty := "File id cannot be empty"

  function Invalid(message: string): Status {
    Status(InvalidArgument, message)
  }

  /** A database error as the `Internal` status named `message`. */
  function Done(res: Result<(), DbError>, message: string): (r: Result<(), Status>)
    ensures r.Ok? <==> res.Ok?
    ensures r.Err? ==> r.error == Status(Internal, message)
  {
    if res.Ok? then Ok(()) else Err(Status(Internal, message))
  }

  /** `create_tag`: a duplicate is the caller's fault, anything else the
      server's. */
  function CreateTag(db: Database, name: string): (r: Run<Result<(), Status>>)
    ensures r.outcome.Returned?
    ensures IsBlank(name) ==> r == Run(Returned(Err(Invalid(TagNameCannotBeEmpty))), [])
    ensures !IsBlank(name) ==> r.calls == [DbCall.CreateTag(name)]
    ensures !IsBlank(name) ==> (r.outcome.value.Ok? <==> db.createTag([], name).Ok?)
    ensures !IsBlank(name) && db.createTag([], name).Err?
            ==> r.outcome.value.error == (if IsDuplicate(db.createTag([], name).error) then Invalid("Tag already exists")
                                          else Status(Internal, "Can't create tag"))
  {
    if IsBlank(name) then Run(Returned(Err(Invalid(TagNameCannotBeEmpty))), [])
    else MapRun(TagDomain.CreateTag(db, [], name),
                (res: Result<TagRow, DbError>) =>
                  match res
                  case Ok(_) => Ok(())
                  case Err(e) => if IsDuplicate(e) then Err(Invalid("Tag already exists")) else Err(Status(Internal, "Can't create tag")))
  }

  /** `remove_tag`. */
  function RemoveTag(db: Database, name: string): (r: Run<Result<(), Status>>)
    ensures r.outcome.Returned?
    ensures IsBlank(name) ==> r == Run(Returned(Err(Invalid(TagNameCannotBeEmpty))), [])
    ensures !IsBlank(name) ==> r == Run(Returned(Done(db.removeTag([], name), "Can't remove tag")), [DbCall.RemoveTag(name)])
  {
    if IsBlank(name) then Run(Returned(Err(Invalid(TagNameCannotBeEmpty))), [])
    else MapRun(TagDomain.RemoveTag(db, [], name), res => Done(res, "Can't remove tag"))
  }

  /** `link_file_with_tag`: the file id is checked first. */
  function LinkFileWithTag(db: Database, fileId: string, tagName: string): (r: Run<Result<(), Status>>)
    ensures r.outcome.Returned?
    ensures IsBlank(fileId) ==> r == Run(Returned(Err(Invalid(FileIdCannotBeEmpty))), [])
    ensures !IsBlank(fileId) && IsBlank(tagName) ==> r == Run(Returned(Err(Invalid(TagNameCannotBeEmpty))), [])
    ensures !IsBlank(fileId) && !IsBlank(tagName)
            ==> && r.calls == [DbCall.LinkFileWithTag(fileId, tagName)]
                && (r.outcome.value.Ok? <==> db.linkFileWithTag([], fileId, tagName).Ok?)
                && (r.outcome.value.Err? ==> r.outcome.value.error == Status(Internal, "Can't link file with tag"))
  {
    if IsBlank(fileId) then Run(Returned(Err(Invalid(FileIdCannotBeEmpty))), [])
    else if IsBlank(tagName) then Run(Returned(Err(Invalid(TagNameCannotBeEmpty))), [])
    else MapRun(TagDomain.LinkFileWithTag(db, [], fileId, tagName), res => Done(res, "Can't link file with tag"))
  }

  /** `get_tags`: the names of all tags, in the database's order. */
  function GetTags(db: Database): (r: Run<Result<seq<string>, Status>>)
    ensures r.outcome.Returned? && r.calls == [DbCall.GetTags]
    ensures r.outcome.value.Ok? <==> db.getTags([]).Ok?
    ensures r.outcome.value.Ok? ==> r.outcome.value.value == TagNames(db.getTags([]).value)
    ensures r.outcome.value.Err? ==> r.outcome.value.error == Status(Internal, "Can't get tags")
  {
    MapRun(TagDomain.GetTags(db, []),
           (res: Result<seq<TagRow>, DbError>) =>
             if res.Ok? then Ok(TagNames(res.value)) else Err(Status(Internal, "Can't get tags")))
  }

  /** `get_file_tags` as written: it asks for the files tagged with a tag
      whose name is the file id, and replies with those files' names. */
  function GetFileTags(db: Database, fileId: string): (r: Run<Result<seq<string>, Status>>)
    ensures r.outcome.Returned?
    ensures IsBlank(fileId) ==> r == Run(Returned(Err(Invalid(FileIdCannotBeEmpty))), [])
    ensures !IsBlank(fileId) ==> r.calls == [DbCall.GetFilesTaggedWith(fileId)]
    ensures !IsBlank(fileId) ==> (r.outcome.value.Ok? <==> db.getFilesTaggedWith([], fileId).Ok?)
    ensures !IsBlank(fileId) && r.outcome.value.Ok? ==> r.outcome.value.value == FileNames(db.getFilesTaggedWith([], fileId).value)
    ensures r.outcome.value.Err? && !IsBlank(fileId) ==> r.outcome.value.error == Status(Internal, "Can't get file tags")
  {
    if IsBlank(fileId) then Run(Returned(Err(Invalid(FileIdCannotBeEmpty))), [])
    else MapRun(TagDomain.GetFilesTaggedWith(db, [], fileId),
                (res: Result<seq<FileRow>, DbError>) =>
                  if res.Ok? then Ok(FileNames(res.value)) else Err(Status(Internal, "Can't get file tags")))
  }

  /** `get_file_tags` as its name and messages describe it: the names of
      the tags linked to the file. */
  function GetFileTagsOfFile(db: Database, fileId: string): (r: Run<Result<seq<string>, Status>>)
    ensures r.outcome.Returned?
    ensures IsBlank(fileId) ==> r == Run(Returned(Err(Invalid(FileIdCannotBeEmpty))), [])
    ensures !IsBlank(fileId) ==> r.calls == [DbCall.GetTagsOfFile(fileId)]
    ensures !IsBlank(fileId) ==> (r.outcome.value.Ok? <==> db.getTagsOfFile([], fileId).Ok?)
    ensures !IsBlank(fileId) && r.outcome.value.Ok? ==> r.outcome.value.value == TagNames(db.getTagsOfFile([], fileId).value)
    ensures r.outcome.value.Err? && !IsBlank(fileId) ==> r.outcome.value.error == Status(Internal, "Can't get file tags")
  {
    if IsBlank(fileId) then Run(Returned(Err(Invalid(FileIdCannotBeEmpty))), [])
    else MapRun(TagDomain.GetTagsOfFile(db, [], fileId),
                (res: Result<seq<TagRow>, DbError>) =>
                  if res.Ok? then Ok(TagNames(res.value)) else Err(Status(Internal, "Can't get file tags")))
  }

  const Epoch := Timestamp("1970-01-01 00:00:00")

  /** A catalog holding one file, "report.pdf" with id "f1", tagged "red",
      and no tag named "f1". */
  function OneTaggedFile(): Database {
    var file := FileRow(1, "report.pdf", "f1", 10, "application/pdf", Epoch, Epoch);
    var red := TagRow(1, "red", Epoch, Epoch);
    var refused := DbError("refused");
    Database(
      (l: Log, f: NewFile) => Err(refused),
      (l: Log, s: string) => Err(refused),
      (l: Log, s: string) => if s == "f1" then Ok(file) else Err(refused),
      (l: Log) => Ok([file]),
      (l: Log, s: string) => Err(refused),
      (l: Log, s: string) => Err(refused),
      (l: Log, s: string, t: string) => Err(refused),
      (l: Log) => Ok([red]),
      (l: Log, s: string) => if s == "f1" then Ok([red]) else Ok([]),
      (l: Log, s: string, t: string) => Err(refused),
      (l: Log, s: string) => if s == "red" then Ok([file]) else Ok([]))
  }

  /** The file id of that catalog is not blank. */
  lemma IdNotBlank()
    ensures !IsBlank("f1")
  {
    assert !IsWhitespace("f1"[0]);
  }

  /** On that catalog the service as written answers that file "f1" has no
      tags, while the corrected one answers "red". */
  lemma FileTagsMissed()
    ensures GetFileTags(OneTaggedFile(), "f1").outcome == Returned(Ok([]))
    ensures GetFileTagsOfFile(OneTaggedFile(), "f1").outcome == Returned(Ok(["red"]))
  {
    var db := OneTaggedFile();
    var red := TagRow(1, "red", Epoch, Epoch);
    IdNotBlank();
    assert db.getFilesTaggedWith([], "f1") == Ok([]);
    assert FileNames([]) == [];
    assert db.getTagsOfFile([], "f1") == Ok([red]);
    assert TagNames([red]) == ["red"];
  }

  /** `remove_file_tag`. */
  function RemoveFileTag(db: Database, fileId: string, tagName: string): (r: Run<Result<(), Status>>)
    ensures r.outcome.Returned?
    ensures IsBlank(fileId) ==> r == Run(Returned(Err(Invalid(FileIdCannotBeEmpty))), [])
    ensures !IsBlank(fileId) && IsBlank(tagName) ==> r == Run(Returned(Err(Invalid(TagNameCannotBeEmpty))), [])
    ensures !IsBlank(fileId) && !IsBlank(tagName)
            ==> r == Run(Returned(Done(db.removeTagFromFile([], fileId, tagName), "Can't remove file tag")),
                         [DbCall.RemoveTagFromFile(fileId, tagName)])
  {
    if IsBlank(fileId) then Run(Returned(Err(Invalid(FileIdCannotBeEmpty))), [])
    else if IsBlank(tagName) then Run(Returned(Err(Invalid(TagNameCannotBeEmpty))), [])
    else MapRun(TagDomain.RemoveTagFromFile(db, [], fileId, tagName), res => Done(res, "Can't remove file tag"))
  }

  /** `get_files_tagged_with`: the files, copied as `storefile.File`
      messages. */
  function GetFilesTaggedWith(db: Database, name: string): (r: Run<Result<seq<FileGrpc.ProtoFile>, Status>>)
    ensures r.outcome.Returned?
    ensures IsBlank(name) ==> r == Run(Returned(Err(Invalid(TagNameCannotBeEmpty))), [])
    ensures !IsBlank(name) ==> r.calls == [DbCall.GetFilesTaggedWith(name)]
    ensures !IsBlank(name) ==> (r.outcome.value.Ok? <==> db.getFilesTaggedWith([], name).Ok?)
    ensures !IsBlank(name) && r.outcome.value.Ok?
            ==> r.outcome.value.value == FileGrpc.ProtoFiles(db.getFilesTaggedWith([], name).value)
    ensures r.outcome.value.Err? && !IsBlank(name) ==> r.outcome.value.error == Status(Internal, "Can't get files tagged with")
  {
    if IsBlank(name) then Run(Returned(Err(Invalid(TagNameCannotBeEmpty))), [])
    else MapRun(TagDomain.GetFilesTaggedWith(db, [], name),
                (res: Result<seq<FileRow>, DbError>) =>
                  if res.Ok? then Ok(FileGrpc.ProtoFiles(res.value)) else Err(Status(Internal, "Can't get files tagged with")))
  }
}
