/** The catalog's gRPC file service. Its checks match the domain layer's,
    so only a blank entry in the tag list can still panic an insert; every
    database error, duplicates included, becomes `Internal`. */
module FileGrpc {
  import opened Wrappers
  import opened Text
  import opened Catalog
  import opened Rpc
  import FileDomain
  import TagDomain

  /** The `storefile.File` message: a row with its timestamps rendered. */
  datatype ProtoFile = ProtoFile(id: i32, name: string, identifier: string, size: i64, mimeType: string,
                                 createdAt: string, updatedAt: string)

  /** The field-by-field copy the service makes of a row. */
  function ToProto(row: FileRow): (p: ProtoFile)
    ensures p.createdAt == row.createdAt.rendered && p.updatedAt == row.updatedAt.rendered
  {
    ProtoFile(row.id, row.name, row.identifier, row.size, row.mimeType, row.createdAt.rendered, row.updatedAt.rendered)
  }

  /** What a client reads back from the message. */
  function FromProto(p: ProtoFile): (row: FileRow)
    ensures row.createdAt == Timestamp(p.createdAt) && row.updatedAt == Timestamp(p.updatedAt)
  {
    FileRow(p.id, p.name, p.identifier, p.size, p.mimeType, Timestamp(p.createdAt), Timestamp(p.updatedAt))
  }

  /** The copy loses nothing. */
  lemma ProtoRoundTrip(row: FileRow)
    ensures FromProto(ToProto(row)) == row
  {
  }

  /** The copy of a list of rows, in order. */
  function ProtoFiles(rows: seq<FileRow>): (ps: seq<ProtoFile>)
    ensures |ps| == |rows|
    ensures forall i :: 0 <= i < |rows| ==> FromProto(ps[i]) == rows[i]
  {
    if rows == [] then [] else [ToProto(rows[0])] + ProtoFiles(rows[1..])
  }

  function Invalid(message: string): Status {
    Status(InvalidArgument, message)
  }

  /** The first `insert` check the request fails. */
  function InsertCheck(data: FileInfo): (r: Option<string>)
    ensures r.None? <==> FileDomain.ValidInfo(data)
  {
    if IsBlank(data.name) then Some("File name cannot be empty")
    else if IsBlank(data.identifier) then Some("File identifier cannot be empty")
    else if data.size < 0 then Some("File size cannot be negative")
    else if IsBlank(data.mimeType) then Some("File type cannot be empty")
    else None
  }

  function InsertStatus(res: Result<(), DbError>): (r: Result<(), Status>)
    ensures r.Ok? <==> res.Ok?
    ensures r.Err? ==> r.error == Status(Internal, "Can't insert file")
  {
    if res.Ok? then Ok(()) else Err(Status(Internal, "Can't insert file"))
  }

  /** `insert`. */
  function Insert(db: Database, data: FileInfo): (r: Run<Result<(), Status>>)
    ensures !FileDomain.ValidInfo(data) ==> r == Run(Returned(Err(Invalid(InsertCheck(data).value))), [])
    ensures r.outcome.Panicked? ==> FileDomain.FirstBlank(data.tags) < |data.tags| && r.outcome.message == TagDomain.TagnameEmpty
    ensures FileDomain.ValidInfo(data)
            ==> && r.calls == FileDomain.Insert(db, data).calls
                && (r.outcome.Panicked? <==> FileDomain.Insert(db, data).outcome.Panicked?)
                && (r.outcome.Returned? ==> r.outcome.value == InsertStatus(FileDomain.Insert(db, data).outcome.value))
  {
    match InsertCheck(data)
    case Some(message) => Run(Returned(Err(Invalid(message))), [])
    case None =>
      FileDomain.ValidInsertPanicsOnTag(db, data);
      MapRun(FileDomain.Insert(db, data), InsertStatus)
  }

  /** Unlike the HTTP handler, the service does not single out a duplicate
      identifier: every database error on insert is `Internal`. */
  lemma DuplicateIsInternal(db: Database, data: FileInfo)
    requires FileDomain.ValidInfo(data)
    requires db.insertFile([], FileDomain.Columns(data)).Err?
    ensures Insert(db, data) == Run(Returned(Err(Status(Internal, "Can't insert file"))), [InsertFile(FileDomain.Columns(data))])
  {
  }

  const IdentifierCannotBeEmpty := "File identifier cannot be empty"

  /** `get`. */
  function Get(db: Database, id: string): (r: Run<Result<ProtoFile, Status>>)
    ensures r.outcome.Returned?
    ensures IsBlank(id) ==> r == Run(Returned(Err(Invalid(IdentifierCannotBeEmpty))), [])
    ensures !IsBlank(id) ==> r.calls == [GetFileByIdentifier(id)]
    ensures !IsBlank(id) ==> (r.outcome.value.Ok? <==> db.getFileByIdentifier([], id).Ok?)
    ensures !IsBlank(id) && r.outcome.value.Ok? ==> FromProto(r.outcome.value.value) == db.getFileByIdentifier([], id).value
    ensures !IsBlank(id) && r.outcome.value.Err? ==> r.outcome.value.error == Status(Internal, "Can't retrieve file")
  {
    if IsBlank(id) then Run(Returned(Err(Invalid(IdentifierCannotBeEmpty))), [])
    else MapRun(FileDomain.Get(db, id),
                (res: Result<FileRow, DbError>) =>
                  if res.Ok? then Ok(ToProto(res.value)) else Err(Status(Internal, "Can't retrieve file")))
  }

  /** `delete`. */
  function Delete(db: Database, id: string): (r: Run<Result<(), Status>>)
    ensures r.outcome.Returned?
    ensures IsBlank(id) ==> r == Run(Returned(Err(Invalid(IdentifierCannotBeEmpty))), [])
    ensures !IsBlank(id) ==> r.calls == [GetFileByIdentifier(id), RemoveFileByIdentifier(id)]
    ensures !IsBlank(id) ==> (r.outcome.value.Ok? <==> db.removeFileByIdentifier([GetFileByIdentifier(id)], id).Ok?)
    ensures r.outcome.value.Err? && !IsBlank(id) ==> r.outcome.value.error == Status(Internal, "Can't delete file")
  {
    if IsBlank(id) then Run(Returned(Err(Invalid(IdentifierCannotBeEmpty))), [])
    else MapRun(FileDomain.Remove(db, id),
                (res: Result<(), DbError>) => if res.Ok? then Ok(()) else Err(Status(Internal, "Can't delete file")))
  }

  /** `list`. */
  function List(db: Database): (r: Run<Result<seq<ProtoFile>, Status>>)
    ensures r.outcome.Returned? && r.calls == [GetFiles]
    ensures r.outcome.value.Ok? <==> db.getFiles([]).Ok?
    ensures r.outcome.value.Ok? ==> r.outcome.value.value == ProtoFiles(db.getFiles([]).value)
    ensures r.outcome.value.Err? ==> r.outcome.value.error == Status(Internal, "Can't retrieve file list")
  {
    MapRun(FileDomain.GetAll(db),
           (res: Result<seq<FileRow>, DbError>) =>
             if res.Ok? then Ok(ProtoFiles(res.value)) else Err(Status(Internal, "Can't retrieve file list")))
  }
}
