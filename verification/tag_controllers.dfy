/** The catalog's HTTP handlers for tags. All but `create_tag` check their
    input with `trim`, as the domain layer does, and so never reach one of
    its panics; `create_tag` checks `is_empty` only. */
module TagControllers {
  import opened Wrappers
  import opened Text
  import opened Http
  import opened Catalog
  import TagDomain
  import FileControllers

  type CatalogReply = Reply<Payload>

  const NameCannotBeEmpty := "Name cannot be empty"
  const TagExists := "Tag already exists"
  const InternalError := "Internal server error"

  /** The 500 of the tag handlers, which carries a text body. */
  function ServerError(): (r: CatalogReply)
    ensures r.status == StatusInternal && r.body == TextBody(InternalError)
  {
    Plain(StatusInternal, TextBody(InternalError))
  }

  /** How `create_tag` reports the domain's result. */
  function CreateReply(res: Result<TagRow, DbError>): (r: CatalogReply)
    ensures r.status == StatusOk <==> res.Ok?
    ensures res.Ok? ==> r == JsonOk(OneTag(res.value))
    ensures res.Err? && IsDuplicate(res.error) ==> r == FileControllers.Unprocessable(TagExists)
    ensures res.Err? && !IsDuplicate(res.error) ==> r == ServerError()
  {
    match res
    case Ok(tag) => JsonOk(OneTag(tag))
    case Err(e) => if IsDuplicate(e) then FileControllers.Unprocessable(TagExists) else ServerError()
  }

  /** `create_tag` as written: a name of white space only gets past the
      `is_empty` check and panics in the domain layer. */
  function CreateTag(db: Database, name: string): (r: Run<CatalogReply>)
    ensures name == "" ==> r == Run(Returned(FileControllers.Unprocessable(NameCannotBeEmpty)), [])
    ensures r.outcome.Panicked? <==> name != "" && IsBlank(name)
    ensures name != "" ==> r.calls == TagDomain.CreateTag(db, [], name).calls
    ensures !IsBlank(name) ==> r.outcome == Returned(CreateReply(db.createTag([], name)))
  {
    if name == "" then Run(Returned(FileControllers.Unprocessable(NameCannotBeEmpty)), [])
    else MapRun(TagDomain.CreateTag(db, [], name), CreateReply)
  }

  /** The smallest name that shows the gap: one space. */
  lemma SpaceTagPanics(db: Database)
    ensures CreateTag(db, " ").outcome == Panicked(TagDomain.TagnameEmpty)
    ensures CreateTag(db, " ").calls == []
  {
  }

  /** `create_tag` with the domain's own test: a blank name is a 422 and
      the handler cannot panic. */
  function CreateTagChecked(db: Database, name: string): (r: Run<CatalogReply>)
    ensures r.outcome.Returned?
    ensures IsBlank(name) ==> r == Run(Returned(FileControllers.Unprocessable(NameCannotBeEmpty)), [])
    ensures !IsBlank(name) ==> r == Run(Returned(CreateReply(db.createTag([], name))), [DbCall.CreateTag(name)])
  {
    if IsBlank(name) then Run(Returned(FileControllers.Unprocessable(NameCannotBeEmpty)), [])
    else MapRun(TagDomain.CreateTag(db, [], name), CreateReply)
  }

  /** On every name the two versions agree except the blank non-empty ones,
      where only the corrected one answers. */
  lemma CheckedAgreesOffBlank(db: Database, name: string)
    requires name == "" || !IsBlank(name)
    ensures CreateTagChecked(db, name) == CreateTag(db, name)
  {
  }

  /** 200 with no body, or the text 500. */
  function DoneReply(res: Result<(), DbError>): (r: CatalogReply)
    ensures r.status == StatusOk <==> res.Ok?
    ensures res.Ok? ==> r == Plain(StatusOk, NoBody)
    ensures res.Err? ==> r == ServerError()
  {
    if res.Ok? then Plain(StatusOk, NoBody) else ServerError()
  }

  /** Tag rows as JSON, or the text 500. */
  function TagsReply(res: Result<seq<TagRow>, DbError>): (r: CatalogReply)
    ensures r.status == StatusOk <==> res.Ok?
    ensures res.Ok? ==> r == JsonOk(TagList(res.value))
    ensures res.Err? ==> r == ServerError()
  {
    match res
    case Ok(tags) => JsonOk(TagList(tags))
    case Err(_) => ServerError()
  }

  /** File rows as JSON, or the text 500. */
  function FilesReply(res: Result<seq<FileRow>, DbError>): (r: CatalogReply)
    ensures r.status == StatusOk <==> res.Ok?
    ensures res.Ok? ==> r == JsonOk(FileList(res.value))
    ensures res.Err? ==> r == ServerError()
  {
    match res
    case Ok(files) => JsonOk(FileList(files))
    case Err(_) => ServerError()
  }

  /** `remove_tag`. */
  function RemoveTag(db: Database, name: string): (r: Run<CatalogReply>)
    ensures r.outcome.Returned?
    ensures IsBlank(name) ==> r == Run(Returned(FileControllers.Unprocessable(NameCannotBeEmpty)), [])
    ensures !IsBlank(name) ==> r == Run(Returned(DoneReply(db.removeTag([], name))), [DbCall.RemoveTag(name)])
  {
    if IsBlank(name) then Run(Returned(FileControllers.Unprocessable(NameCannotBeEmpty)), [])
    else MapRun(TagDomain.RemoveTag(db, [], name), DoneReply)
  }

  /** `link_file_with_tag`: the file id is checked first. */
  function LinkFileWithTag(db: Database, fileId: string, tagName: string): (r: Run<CatalogReply>)
    ensures r.outcome.Returned?
    ensures IsBlank(fileId) ==> r == Run(Returned(FileControllers.Unprocessable("File id cannot be empty")), [])
    ensures !IsBlank(fileId) && IsBlank(tagName) ==> r == Run(Returned(FileControllers.Unprocessable(NameCannotBeEmpty)), [])
    ensures !IsBlank(fileId) && !IsBlank(tagName)
            ==> r == Run(Returned(if db.linkFileWithTag([], fileId, tagName).Ok? then Plain(StatusOk, NoBody) else ServerError()),
                         [DbCall.LinkFileWithTag(fileId, tagName)])
  {
    if IsBlank(fileId) then Run(Returned(FileControllers.Unprocessable("File id cannot be empty")), [])
    else if IsBlank(tagName) then Run(Returned(FileControllers.Unprocessable(NameCannotBeEmpty)), [])
    else MapRun(TagDomain.LinkFileWithTag(db, [], fileId, tagName), DoneReply)
  }

  /** `get_tags`. */
  function GetTags(db: Database): (r: Run<CatalogReply>)
    ensures r == Run(Returned(TagsReply(db.getTags([]))), [DbCall.GetTags])
  {
    MapRun(TagDomain.GetTags(db, []), TagsReply)
  }

  /** `get_tags_of_file`. */
  function GetTagsOfFile(db: Database, id: string): (r: Run<CatalogReply>)
    ensures r.outcome.Returned?
    ensures IsBlank(id) ==> r == Run(Returned(FileControllers.Unprocessable("Id cannot be empty")), [])
    ensures !IsBlank(id) ==> r == Run(Returned(TagsReply(db.getTagsOfFile([], id))), [DbCall.GetTagsOfFile(id)])
  {
    if IsBlank(id) then Run(Returned(FileControllers.Unprocessable("Id cannot be empty")), [])
    else MapRun(TagDomain.GetTagsOfFile(db, [], id), TagsReply)
  }

  /** `remove_tag_from_file`: a blank file id is reported with the message
      "Id cannot be negative". */
  function RemoveTagFromFile(db: Database, fileId: string, tagName: string): (r: Run<CatalogReply>)
    ensures r.outcome.Returned?
    ensures IsBlank(fileId) ==> r == Run(Returned(FileControllers.Unprocessable("Id cannot be negative")), [])
    ensures !IsBlank(fileId) && IsBlank(tagName) ==> r == Run(Returned(FileControllers.Unprocessable(NameCannotBeEmpty)), [])
    ensures !IsBlank(fileId) && !IsBlank(tagName)
            ==> r == Run(Returned(DoneReply(db.removeTagFromFile([], fileId, tagName))), [DbCall.RemoveTagFromFile(fileId, tagName)])
  {
    if IsBlank(fileId) then Run(Returned(FileControllers.Unprocessable("Id cannot be negative")), [])
    else if IsBlank(tagName) then Run(Returned(FileControllers.Unprocessable(NameCannotBeEmpty)), [])
    else MapRun(TagDomain.RemoveTagFromFile(db, [], fileId, tagName), DoneReply)
  }

  /** `get_files_tagged_with`. */
  function GetFilesTaggedWith(db: Database, name: string): (r: Run<CatalogReply>)
    ensures r.outcome.Returned?
    ensures IsBlank(name) ==> r == Run(Returned(FileControllers.Unprocessable(NameCannotBeEmpty)), [])
    ensures !IsBlank(name) ==> r == Run(Returned(FilesReply(db.getFilesTaggedWith([], name))), [DbCall.GetFilesTaggedWith(name)])
  {
    if IsBlank(name) then Run(Returned(FileControllers.Unprocessable(NameCannotBeEmpty)), [])
    else MapRun(TagDomain.GetFilesTaggedWith(db, [], name), FilesReply)
  }
}
