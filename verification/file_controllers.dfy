/** The catalog's HTTP handlers for files. `insert` checks its payload with
    `is_empty`, not the `trim` test the domain layer applies; the other
    handlers trim. */
module FileControllers {
  import opened Wrappers
  import opened Text
  import opened Http
  import opened Catalog
  import FileDomain
  import TagDomain

  type CatalogReply = Reply<Payload>

  const FileExists := "File already exists"

  /** A 422 with a text explanation. */
  function Unprocessable(message: string): (r: CatalogReply)
    ensures r.status == StatusUnprocessable && r.body == TextBody(message)
  {
    Plain(StatusUnprocessable, TextBody(message))
  }

  /** The first `insert` check the payload fails, with its message. */
  function InsertCheck(data: FileInfo): (r: Option<string>)
    ensures r.None? <==> data.name != "" && data.identifier != "" && data.size >= 0 && data.mimeType != ""
  {
    if data.name == "" then Some("Name cannot be empty")
    else if data.identifier == "" then Some("Identifier cannot be empty")
    else if data.size < 0 then Some("Size cannot be negative")
    else if data.mimeType == "" then Some("Mime type cannot be empty")
    else None
  }

  /** How `insert` reports the domain's result: a duplicate key is the
      client's fault (422), any other database error a 500. */
  function InsertReply(res: Result<(), DbError>): (r: CatalogReply)
    ensures r.status == StatusOk <==> res.Ok?
    ensures r.status == StatusUnprocessable <==> res.Err? && IsDuplicate(res.error)
    ensures r.status == StatusUnprocessable ==> r.body == TextBody(FileExists)
    ensures r.status != StatusUnprocessable ==> r.body == NoBody
  {
    match res
    case Ok(_) => Plain(StatusOk, NoBody)
    case Err(e) => if IsDuplicate(e) then Unprocessable(FileExists) else BareError()
  }

  /** `insert` as written: the checks catch only empty strings, so a
      payload whose name, identifier or type is white space only reaches
      the domain layer, which panics on it. */
  function Insert(db: Database, data: FileInfo): (r: Run<CatalogReply>)
    ensures InsertCheck(data).Some? ==> r == Run(Returned(Unprocessable(InsertCheck(data).value)), [])
    ensures data.name == "" ==> r == Run(Returned(Unprocessable("Name cannot be empty")), [])
    ensures data.name != "" && data.identifier == "" ==> r == Run(Returned(Unprocessable("Identifier cannot be empty")), [])
    ensures data.name != "" && data.identifier != "" && data.size < 0
            ==> r == Run(Returned(Unprocessable("Size cannot be negative")), [])
    ensures data.name != "" && data.identifier != "" && data.size >= 0 && data.mimeType == ""
            ==> r == Run(Returned(Unprocessable("Mime type cannot be empty")), [])
    ensures InsertCheck(data).None?
            ==> && r.calls == FileDomain.Insert(db, data).calls
                && (r.outcome.Panicked? <==> FileDomain.Insert(db, data).outcome.Panicked?)
                && (r.outcome.Returned? ==> r.outcome.value == InsertReply(FileDomain.Insert(db, data).outcome.value))
  {
    match InsertCheck(data)
    case Some(message) => Run(Returned(Unprocessable(message)), [])
    case None => MapRun(FileDomain.Insert(db, data), InsertReply)
  }

  /** A name of white space only passes `insert`'s check and panics the
      handler in the domain layer. */
  lemma BlankNamePanics(db: Database, data: FileInfo)
    requires data.name == " " && data.identifier != "" && data.size >= 0 && data.mimeType != ""
    ensures Insert(db, data).outcome == Panicked(FileDomain.NameEmpty)
  {
  }

  /** The first `insert` check with the domain layer's `trim` test. */
  function InsertCheckTrimmed(data: FileInfo): (r: Option<string>)
    ensures r.None? <==> FileDomain.ValidInfo(data)
  {
    if IsBlank(data.name) then Some("Name cannot be empty")
    else if IsBlank(data.identifier) then Some("Identifier cannot be empty")
    else if data.size < 0 then Some("Size cannot be negative")
    else if IsBlank(data.mimeType) then Some("Mime type cannot be empty")
    else None
  }

  /** `insert` with the checks the domain layer evidently relies on: every
      payload the domain would reject is a 422, so the only panic left is a
      blank entry in the tag list. */
  function InsertChecked(db: Database, data: FileInfo): (r: Run<CatalogReply>)
    ensures !FileDomain.ValidInfo(data) ==> r.calls == [] && r.outcome.Returned? && r.outcome.value.status == StatusUnprocessable
    ensures r.outcome.Panicked? ==> FileDomain.FirstBlank(data.tags) < |data.tags|
    ensures FileDomain.ValidInfo(data)
            ==> && r.calls == FileDomain.Insert(db, data).calls
                && (r.outcome.Panicked? <==> FileDomain.Insert(db, data).outcome.Panicked?)
                && (r.outcome.Returned? ==> r.outcome.value == InsertReply(FileDomain.Insert(db, data).outcome.value))
  {
    match InsertCheckTrimmed(data)
    case Some(message) => Run(Returned(Unprocessable(message)), [])
    case None => MapRun(FileDomain.Insert(db, data), InsertReply)
  }

  /** The 200-or-500 mapping of `remove`. */
  function DoneReply(res: Result<(), DbError>): (r: CatalogReply)
    ensures r.status == StatusOk <==> res.Ok?
    ensures r.body == NoBody && r.headers == []
  {
    if res.Ok? then Plain(StatusOk, NoBody) else BareError()
  }

  /** `remove`: the trimmed check matches the domain's, so the handler never
      panics. */
  function Remove(db: Database, id: string): (r: Run<CatalogReply>)
    ensures r.outcome.Returned?
    ensures IsBlank(id) ==> r == Run(Returned(Unprocessable("Identifier cannot be empty")), [])
    ensures !IsBlank(id) ==> r.calls == FileDomain.Remove(db, id).calls
                             && r.outcome.value == DoneReply(FileDomain.Remove(db, id).outcome.value)
  {
    if IsBlank(id) then Run(Returned(Unprocessable("Identifier cannot be empty")), [])
    else MapRun(FileDomain.Remove(db, id), DoneReply)
  }

  /** The rows as JSON, or a bare 500. */
  function FilesReply(res: Result<seq<FileRow>, DbError>): (r: CatalogReply)
    ensures r.status == StatusOk <==> res.Ok?
    ensures res.Ok? ==> r == JsonOk(FileList(res.value))
    ensures res.Err? ==> r == BareError()
  {
    match res
    case Ok(files) => JsonOk(FileList(files))
    case Err(_) => BareError()
  }

  /** `list`. */
  function List(db: Database): (r: Run<CatalogReply>)
    ensures r.outcome.Returned? && r.calls == [GetFiles]
    ensures r.outcome.value == FilesReply(db.getFiles([]))
  {
    MapRun(FileDomain.GetAll(db), FilesReply)
  }

  /** One row as JSON, or a bare 500. */
  function FileReply(res: Result<FileRow, DbError>): (r: CatalogReply)
    ensures r.status == StatusOk <==> res.Ok?
    ensures res.Ok? ==> r == JsonOk(OneFile(res.value))
    ensures res.Err? ==> r == BareError()
  {
    match res
    case Ok(file) => JsonOk(OneFile(file))
    case Err(_) => BareError()
  }

  /** `get`: like `remove`, it trims and so never panics. */
  function Get(db: Database, id: string): (r: Run<CatalogReply>)
    ensures r.outcome.Returned?
    ensures IsBlank(id) ==> r == Run(Returned(Unprocessable("Identifier cannot be empty")), [])
    ensures !IsBlank(id) ==> r.calls == [GetFileByIdentifier(id)]
                             && r.outcome.value == FileReply(db.getFileByIdentifier([], id))
  {
    if IsBlank(id) then Run(Returned(Unprocessable("Identifier cannot be empty")), [])
    else MapRun(FileDomain.Get(db, id), FileReply)
  }
}
