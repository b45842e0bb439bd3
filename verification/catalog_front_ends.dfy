/** The catalog's two front ends side by side. For every operation both
    offer, the HTTP handler and the gRPC service apply the same check,
    issue the same queries, reach the domain layer exactly when its own
    check would pass, and tell the client the same thing: success on the
    same database answers, a refused input as 422 and `InvalidArgument`, a
    database failure as 500 and `Internal`. The rows a read returns are the
    same rows in both encodings. */
module CatalogFrontEnds {
  import opened Wrappers
  import opened Text
  import opened Http
  import opened Rpc
  import opened Catalog
  import TagDomain
  import FileDomain
  import TagControllers
  import TagGrpc
  import FileControllers
  import FileGrpc

  /** An HTTP reply and a gRPC result with the same meaning for the client. */
  predicate SameVerdict<J, T>(reply: Reply<J>, res: Result<T, Status>) {
    && (reply.status == StatusOk <==> res.Ok?)
    && (reply.status == StatusUnprocessable <==> res.Err? && res.error.code == InvalidArgument)
    && (reply.status == StatusInternal <==> res.Err? && res.error.code == Internal)
  }

  /** Two runs of the front ends agree: the same queries, no panic on
      either side, and the same verdict. */
  predicate Agree<J, T>(http: Run<Reply<J>>, rpc: Run<Result<T, Status>>) {
    && http.calls == rpc.calls
    && http.outcome.Returned? && rpc.outcome.Returned?
    && SameVerdict(http.outcome.value, rpc.outcome.value)
  }

  /** `create_tag`: the HTTP handler agrees with the service everywhere once
      it trims, and as written everywhere except on non-empty blank names,
      where it panics and the service refuses the name. */
  lemma CreateTagAgrees(db: Database, name: string)
    ensures Agree(TagControllers.CreateTagChecked(db, name), TagGrpc.CreateTag(db, name))
    ensures !(name != "" && IsBlank(name)) ==> Agree(TagControllers.CreateTag(db, name), TagGrpc.CreateTag(db, name))
    ensures name != "" && IsBlank(name)
            ==> TagControllers.CreateTag(db, name).outcome.Panicked?
                && TagGrpc.CreateTag(db, name).outcome == Returned(Err(Status(InvalidArgument, TagGrpc.TagNameCannotBeEmpty)))
    ensures TagGrpc.CreateTag(db, name).calls != [] <==> TagDomain.CreateTag(db, [], name).outcome.Returned?
  {
  }

  /** `remove_tag`. */
  lemma RemoveTagAgrees(db: Database, name: string)
    ensures Agree(TagControllers.RemoveTag(db, name), TagGrpc.RemoveTag(db, name))
    ensures TagGrpc.RemoveTag(db, name).calls != [] <==> TagDomain.RemoveTag(db, [], name).outcome.Returned?
  {
  }

  /** `link_file_with_tag`. */
  lemma LinkFileWithTagAgrees(db: Database, fileId: string, tagName: string)
    ensures Agree(TagControllers.LinkFileWithTag(db, fileId, tagName), TagGrpc.LinkFileWithTag(db, fileId, tagName))
    ensures TagGrpc.LinkFileWithTag(db, fileId, tagName).calls != []
            <==> TagDomain.LinkFileWithTag(db, [], fileId, tagName).outcome.Returned?
  {
  }

  /** `get_tags`: the service's names are the names of the rows the HTTP
      handler sends as JSON. */
  lemma GetTagsAgrees(db: Database)
    ensures Agree(TagControllers.GetTags(db), TagGrpc.GetTags(db))
    ensures TagGrpc.GetTags(db).calls == TagDomain.GetTags(db, []).calls
    ensures var h := TagControllers.GetTags(db).outcome.value;
            var g := TagGrpc.GetTags(db).outcome.value;
            g.Ok? ==> h.body.JsonBody? && h.body.value.TagList? && g.value == TagNames(h.body.value.tags)
  {
  }

  /** `get_tags_of_file` over HTTP and the corrected `get_file_tags`: the
      same names. The service as written asks a different query. */
  lemma GetTagsOfFileAgrees(db: Database, fileId: string)
    ensures Agree(TagControllers.GetTagsOfFile(db, fileId), TagGrpc.GetFileTagsOfFile(db, fileId))
    ensures TagGrpc.GetFileTagsOfFile(db, fileId).calls != [] <==> TagDomain.GetTagsOfFile(db, [], fileId).outcome.Returned?
    ensures var h := TagControllers.GetTagsOfFile(db, fileId).outcome.value;
            var g := TagGrpc.GetFileTagsOfFile(db, fileId).outcome.value;
            g.Ok? ==> h.body.JsonBody? && h.body.value.TagList? && g.value == TagNames(h.body.value.tags)
    ensures !IsBlank(fileId) ==> TagControllers.GetTagsOfFile(db, fileId).calls != TagGrpc.GetFileTags(db, fileId).calls
  {
  }

  /** `remove_tag_from_file` over HTTP and `remove_file_tag` over gRPC. */
  lemma RemoveTagFromFileAgrees(db: Database, fileId: string, tagName: string)
    ensures Agree(TagControllers.RemoveTagFromFile(db, fileId, tagName), TagGrpc.RemoveFileTag(db, fileId, tagName))
    ensures TagGrpc.RemoveFileTag(db, fileId, tagName).calls != []
            <==> TagDomain.RemoveTagFromFile(db, [], fileId, tagName).outcome.Returned?
  {
  }

  /** `get_files_tagged_with`: each message of the service reads back to the
      row in the same position of the HTTP handler's JSON. */
  lemma GetFilesTaggedWithAgrees(db: Database, name: string)
    ensures Agree(TagControllers.GetFilesTaggedWith(db, name), TagGrpc.GetFilesTaggedWith(db, name))
    ensures TagGrpc.GetFilesTaggedWith(db, name).calls != [] <==> TagDomain.GetFilesTaggedWith(db, [], name).outcome.Returned?
    ensures var h := TagControllers.GetFilesTaggedWith(db, name).outcome.value;
            var g := TagGrpc.GetFilesTaggedWith(db, name).outcome.value;
            g.Ok? ==> && h.body.JsonBody? && h.body.value.FileList?
                      && |g.value| == |h.body.value.files|
                      && forall i :: 0 <= i < |g.value| ==> FileGrpc.FromProto(g.value[i]) == h.body.value.files[i]
  {
  }

  /** `remove` over HTTP and `delete` over gRPC. */
  lemma RemoveAgrees(db: Database, identifier: string)
    ensures Agree(FileControllers.Remove(db, identifier), FileGrpc.Delete(db, identifier))
    ensures FileGrpc.Delete(db, identifier).calls != [] <==> FileDomain.Remove(db, identifier).outcome.Returned?
  {
  }

  /** `get`: the service's message reads back to the row the HTTP handler
      sends. */
  lemma GetAgrees(db: Database, identifier: string)
    ensures Agree(FileControllers.Get(db, identifier), FileGrpc.Get(db, identifier))
    ensures FileGrpc.Get(db, identifier).calls != [] <==> FileDomain.Get(db, identifier).outcome.Returned?
    ensures var h := FileControllers.Get(db, identifier).outcome.value;
            var g := FileGrpc.Get(db, identifier).outcome.value;
            g.Ok? ==> h.body.JsonBody? && h.body.value.OneFile? && FileGrpc.FromProto(g.value) == h.body.value.file
  {
  }

  /** `list`: the same rows, in the same order. */
  lemma ListAgrees(db: Database)
    ensures Agree(FileControllers.List(db), FileGrpc.List(db))
    ensures var h := FileControllers.List(db).outcome.value;
            var g := FileGrpc.List(db).outcome.value;
            g.Ok? ==> && h.body.JsonBody? && h.body.value.FileList?
                      && |g.value| == |h.body.value.files|
                      && forall i :: 0 <= i < |g.value| ==> FileGrpc.FromProto(g.value[i]) == h.body.value.files[i]
  {
  }

  /** `insert`, with the HTTP handler's trimmed checks: the same queries and
      the same panics, success on the same answers, and a refused payload
      refused on both sides. The one difference is a duplicate identifier,
      which HTTP reports as 422 and the service as `Internal`. */
  lemma InsertAgrees(db: Database, data: FileInfo)
    ensures FileControllers.InsertChecked(db, data).calls == FileGrpc.Insert(db, data).calls
    ensures FileControllers.InsertChecked(db, data).outcome.Panicked? <==> FileGrpc.Insert(db, data).outcome.Panicked?
    ensures !FileDomain.ValidInfo(data) ==> Agree(FileControllers.InsertChecked(db, data), FileGrpc.Insert(db, data))
    ensures var h := FileControllers.InsertChecked(db, data).outcome;
            var g := FileGrpc.Insert(db, data).outcome;
            h.Returned? && g.Returned?
            ==> && (h.value.status == StatusOk <==> g.value.Ok?)
                && (h.value.status == StatusInternal ==> g.value.Err? && g.value.error.code == Internal)
                && (FileDomain.ValidInfo(data) && h.value.status == StatusUnprocessable
                    ==> g.value == Err(Status(Internal, "Can't insert file")))
  {
  }
}
