/** The tag operations of the catalog's domain layer: each panics on blank
    input (blank meaning empty after `trim`) and otherwise hands the
    database's answer back unchanged. */
module TagDomain {
  import opened Wrappers
  import opened Text
  import opened Catalog

  const TagnameEmpty := "Tagname is empty"
  const TagNameEmpty := "Tag name is empty"
  const FileIdEmpty := "File id is empty"

  /** `create_tag`. */
  function CreateTag(db: Database, log: Log, tagName: string): (r: Run<Result<TagRow, DbError>>)
    ensures r.outcome.Panicked? <==> IsBlank(tagName)
    ensures IsBlank(tagName) ==> r == Run(Panicked(TagnameEmpty), [])
    ensures !IsBlank(tagName) ==> r == Run(Returned(db.createTag(log, tagName)), [DbCall.CreateTag(tagName)])
  {
    if IsBlank(tagName) then Run(Panicked(TagnameEmpty), [])
    else Run(Returned(db.createTag(log, tagName)), [DbCall.CreateTag(tagName)])
  }

  /** `remove_tag`. */
  function RemoveTag(db: Database, log: Log, tagName: string): (r: Run<Result<(), DbError>>)
    ensures r.outcome.Panicked? <==> IsBlank(tagName)
    ensures IsBlank(tagName) ==> r == Run(Panicked(TagNameEmpty), [])
    ensures !IsBlank(tagName) ==> r == Run(Returned(db.removeTag(log, tagName)), [DbCall.RemoveTag(tagName)])
  {
    if IsBlank(tagName) then Run(Panicked(TagNameEmpty), [])
    else Run(Returned(db.removeTag(log, tagName)), [DbCall.RemoveTag(tagName)])
  }

  /** `link_file_with_tag`: the file id is checked before the tag name, and
      the database's row count is dropped. */
  function LinkFileWithTag(db: Database, log: Log, fileId: string, tagName: string): (r: Run<Result<(), DbError>>)
    ensures r.outcome.Panicked? <==> IsBlank(fileId) || IsBlank(tagName)
    ensures IsBlank(fileId) ==> r == Run(Panicked(FileIdEmpty), [])
    ensures !IsBlank(fileId) && IsBlank(tagName) ==> r == Run(Panicked(TagNameEmpty), [])
    ensures r.outcome.Returned? ==> r.calls == [DbCall.LinkFileWithTag(fileId, tagName)]
                                    && (r.outcome.value.Ok? <==> db.linkFileWithTag(log, fileId, tagName).Ok?)
                                    && (r.outcome.value.Err? ==> r.outcome.value.error == db.linkFileWithTag(log, fileId, tagName).error)
  {
    if IsBlank(fileId) then Run(Panicked(FileIdEmpty), [])
    else if IsBlank(tagName) then Run(Panicked(TagNameEmpty), [])
    else
      match db.linkFileWithTag(log, fileId, tagName)
      case Ok(_) => Run(Returned(Ok(())), [DbCall.LinkFileWithTag(fileId, tagName)])
      case Err(e) => Run(Returned(Err(e)), [DbCall.LinkFileWithTag(fileId, tagName)])
  }

  /** `get_tags`: no precondition. */
  function GetTags(db: Database, log: Log): Run<Result<seq<TagRow>, DbError>>
  {
    Run(Returned(db.getTags(log)), [DbCall.GetTags])
  }

  /** `get_tags_of_file`. */
  function GetTagsOfFile(db: Database, log: Log, fileId: string): (r: Run<Result<seq<TagRow>, DbError>>)
    ensures r.outcome.Panicked? <==> IsBlank(fileId)
    ensures IsBlank(fileId) ==> r == Run(Panicked(FileIdEmpty), [])
    ensures !IsBlank(fileId) ==> r == Run(Returned(db.getTagsOfFile(log, fileId)), [DbCall.GetTagsOfFile(fileId)])
  {
    if IsBlank(fileId) then Run(Panicked(FileIdEmpty), [])
    else Run(Returned(db.getTagsOfFile(log, fileId)), [DbCall.GetTagsOfFile(fileId)])
  }

  /** `remove_tag_from_file`: the file id is checked before the tag name. */
  function RemoveTagFromFile(db: Database, log: Log, fileId: string, tagName: string): (r: Run<Result<(), DbError>>)
    ensures r.outcome.Panicked? <==> IsBlank(fileId) || IsBlank(tagName)
    ensures IsBlank(fileId) ==> r == Run(Panicked(FileIdEmpty), [])
    ensures !IsBlank(fileId) && IsBlank(tagName) ==> r == Run(Panicked(TagNameEmpty), [])
    ensures r.outcome.Returned?
            ==> r == Run(Returned(db.removeTagFromFile(log, fileId, tagName)), [DbCall.RemoveTagFromFile(fileId, tagName)])
  {
    if IsBlank(fileId) then Run(Panicked(FileIdEmpty), [])
    else if IsBlank(tagName) then Run(Panicked(TagNameEmpty), [])
    else Run(Returned(db.removeTagFromFile(log, fileId, tagName)), [DbCall.RemoveTagFromFile(fileId, tagName)])
  }

  /** `get_files_tagged_with`. */
  function GetFilesTaggedWith(db: Database, log: Log, tagName: string): (r: Run<Result<seq<FileRow>, DbError>>)
    ensures r.outcome.Panicked? <==> IsBlank(tagName)
    ensures IsBlank(tagName) ==> r == Run(Panicked(TagNameEmpty), [])
    ensures !IsBlank(tagName) ==> r == Run(Returned(db.getFilesTaggedWith(log, tagName)), [DbCall.GetFilesTaggedWith(tagName)])
  {
    if IsBlank(tagName) then Run(Panicked(TagNameEmpty), [])
    else Run(Returned(db.getFilesTaggedWith(log, tagName)), [DbCall.GetFilesTaggedWith(tagName)])
  }
}
