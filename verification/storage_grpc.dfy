/** The gateway's RPC service: raw object transfer under an id, with no
    encryption on either path. */
module StorageGrpc {
  import opened Wrappers
  import opened Text
  import opened Rpc
  import opened Aead
  import opened Envelope
  import opened Stream
  import opened Backend
  import Http
  import StorageHttp

  /** An `UpdateRequest` stream item: its message field is text. */
  type TextItem = Result<string, StreamError>

  /** The status for a failed backend call: `Internal` with the error text. */
  function BackendFailure(e: TransportError): (s: Status)
    ensures s.code == Internal && s.message == e.message
  {
    Status(Internal, e.message)
  }

  /** `upload_file`: read the whole stream, then allocate an id, then store
      the concatenated messages under it verbatim. A stream error ends the
      call before the allocation result is even looked at. */
  function UploadFile(cfg: Config, items: seq<Item>, uuid: Outcome<string>, send: Transport): (r: Exchange<Result<string, Status>>)
    ensures Reassemble(items).Err? ==> r == Exchange(Returned(Err(Status(Internal, Reassemble(items).error.message))), [])
    ensures Reassemble(items).Ok? && uuid.Panicked? ==> r == Exchange(Panicked(uuid.message), [])
    ensures Reassemble(items).Ok? && uuid.Returned?
            ==> && r.sent == [PutRequest(cfg, uuid.value, Flatten(Messages(items)))]
                && r.outcome == Returned(match send(r.sent[0])
                                         case Ok(_) => Ok(uuid.value)
                                         case Err(e) => Err(BackendFailure(e)))
  {
    match Reassemble(items)
    case Err(e) => Exchange(Returned(Err(Status(Internal, e.message))), [])
    case Ok(out) =>
      match uuid
      case Panicked(m) => Exchange(Panicked(m), [])
      case Returned(id) =>
        var put := PutRequest(cfg, id, out);
        match send(put)
        case Ok(_) => Exchange(Returned(Ok(id)), [put])
        case Err(e) => Exchange(Returned(Err(BackendFailure(e))), [put])
  }

  /** The byte items `update_file` appends: each text message as UTF-8. */
  function EncodeItems(items: seq<TextItem>): (r: seq<Item>)
    ensures |r| == |items|
    ensures forall i :: 0 <= i < |items| ==> (r[i].Ok? <==> items[i].Ok?)
    ensures forall i :: 0 <= i < |items| ==> r[i] == (match items[i] case Ok(t) => Ok(Utf8(t)) case Err(e) => Err(e))
  {
    if items == [] then []
    else [match items[0] case Ok(t) => Ok(Utf8(t)) case Err(e) => Err(e)] + EncodeItems(items[1..])
  }

  /** The concatenated text of an error-free stream of text messages. */
  function Joined(items: seq<TextItem>): string
    requires forall i :: 0 <= i < |items| ==> items[i].Ok?
  {
    if items == [] then "" else items[0].value + Joined(items[1..])
  }

  /** The bytes `update_file` reassembles are the UTF-8 encoding of the whole
      text, however it was split into messages. */
  lemma {:induction false} EncodedJoin(items: seq<TextItem>)
    requires forall i :: 0 <= i < |items| ==> items[i].Ok?
    ensures Reassemble(EncodeItems(items)) == Ok(Utf8(Joined(items)))
  {
    if items != [] {
      EncodedJoin(items[1..]);
      Utf8Append(items[0].value, Joined(items[1..]));
      assert EncodeItems(items)[1..] == EncodeItems(items[1..]);
    }
  }

  /** `update_file`: the target id comes from the "uuid" metadata entry,
      whose absence (or a value that is not visible ASCII) panics; no id is
      allocated. The stream is then stored under that id. */
  function UpdateFile(cfg: Config, md: Metadata, items: seq<TextItem>, send: Transport): (r: Exchange<Result<(), Status>>)
    ensures Lookup(md, "uuid").None? ==> r == Exchange(Panicked(UnwrapNone), [])
    ensures Lookup(md, "uuid").Some? && ToStr(Lookup(md, "uuid").value).Err? ==> r == Exchange(Panicked(UnwrapErr), [])
    ensures r.outcome.Returned? ==> ToStr(Lookup(md, "uuid").value).Ok?
    ensures Lookup(md, "uuid").Some? && ToStr(Lookup(md, "uuid").value).Ok?
            && (forall i :: 0 <= i < |items| ==> items[i].Ok?)
            ==> && r.sent == [PutRequest(cfg, ToStr(Lookup(md, "uuid").value).value, Utf8(Joined(items)))]
                && r.outcome == Returned(match send(r.sent[0])
                                         case Ok(_) => Ok(())
                                         case Err(e) => Err(BackendFailure(e)))
    ensures Lookup(md, "uuid").Some? && ToStr(Lookup(md, "uuid").value).Ok?
            && Reassemble(EncodeItems(items)).Err?
            ==> r == Exchange(Returned(Err(Status(Internal, Reassemble(EncodeItems(items)).error.message))), [])
    ensures r.outcome.Returned? && r.sent == [] ==> r.outcome.value.Err? && r.outcome.value.error.code == Internal
  {
    match Lookup(md, "uuid")
    case None => Exchange(Panicked(UnwrapNone), [])
    case Some(v) =>
      match ToStr(v)
      case Err(_) => Exchange(Panicked(UnwrapErr), [])
      case Ok(id) =>
        match Reassemble(EncodeItems(items))
        case Err(e) => Exchange(Returned(Err(Status(Internal, e.message))), [])
        case Ok(out) =>
          EncodedJoin(items);
          var put := PutRequest(cfg, id, out);
          match send(put)
          case Ok(_) => Exchange(Returned(Ok(())), [put])
          case Err(e) => Exchange(Returned(Err(BackendFailure(e))), [put])
  }

  /** `get_file`: an empty path or a failed fetch is `NotFound`, a failed
      body read is `Internal`; otherwise the stored bytes, undecrypted, as
      the chunk sequence the producer sends. */
  function GetFile(cfg: Config, path: string, send: Transport): (r: Exchange<Result<seq<seq<byte>>, Status>>)
    ensures path == "" ==> r == Exchange(Returned(Err(Status(NotFound, "Empty path"))), [])
    ensures path != "" ==> r.sent == [GetRequest(cfg, path)]
    ensures r.outcome.Returned?
    ensures path != "" && send(GetRequest(cfg, path)).Err? ==> r.outcome.value == Err(Status(NotFound, "Download error"))
    ensures r.outcome.value.Err? && r.outcome.value.error.code == Internal
            <==> path != "" && send(GetRequest(cfg, path)).Ok? && send(GetRequest(cfg, path)).value.body.Err?
    ensures r.outcome.value.Ok?
            ==> && path != "" && send(GetRequest(cfg, path)).Ok? && send(GetRequest(cfg, path)).value.body.Ok?
                && Flatten(r.outcome.value.value) == send(GetRequest(cfg, path)).value.body.value
                && (forall i :: 0 <= i < |r.outcome.value.value| ==> 0 < |r.outcome.value.value[i]| <= ChunkSize)
    ensures path != "" && send(GetRequest(cfg, path)).Ok? && send(GetRequest(cfg, path)).value.body.Ok?
            ==> r.outcome.value == Ok(Chunks(send(GetRequest(cfg, path)).value.body.value))
    ensures path != "" && send(GetRequest(cfg, path)).Ok? && send(GetRequest(cfg, path)).value.body.Err?
            ==> r.outcome.value == Err(Status(Internal, send(GetRequest(cfg, path)).value.body.error.message))
  {
    if path == "" then Exchange(Returned(Err(Status(NotFound, "Empty path"))), [])
    else
      var get := GetRequest(cfg, path);
      match send(get)
      case Err(_) => Exchange(Returned(Err(Status(NotFound, "Download error"))), [get])
      case Ok(response) =>
        match response.body
        case Err(e) => Exchange(Returned(Err(Status(Internal, e.message))), [get])
        case Ok(bytes) => Exchange(Returned(Ok(Chunks(bytes))), [get])
  }

  /** `delete_file`: no validation of the id; a transport failure is
      `Internal` and any backend answer is success. */
  function DeleteFile(cfg: Config, uuid: string, send: Transport): (r: Exchange<Result<(), Status>>)
    ensures r.sent == [DeleteRequest(cfg, uuid)]
    ensures r.outcome.Returned? && (r.outcome.value.Ok? <==> send(DeleteRequest(cfg, uuid)).Ok?)
    ensures r.outcome.value.Err? ==> r.outcome.value.error == BackendFailure(send(DeleteRequest(cfg, uuid)).error)
  {
    var del := DeleteRequest(cfg, uuid);
    match send(del)
    case Ok(_) => Exchange(Returned(Ok(())), [del])
    case Err(e) => Exchange(Returned(Err(BackendFailure(e))), [del])
  }

  /** The RPC delete and the HTTP delete send the same DELETE for a
      non-empty id and succeed on the same transport answers. Only the HTTP
      handler refuses an empty id; the RPC sends a DELETE for it anyway. */
  lemma DeleteAgreesWithHttp(cfg: Config, id: string, send: Transport)
    ensures id != "" ==> DeleteFile(cfg, id, send).sent == StorageHttp.DeleteFile(cfg, id, send).sent
    ensures id != "" ==> (DeleteFile(cfg, id, send).outcome.value.Ok?
                          <==> StorageHttp.DeleteFile(cfg, id, send).outcome.value.status == Http.StatusOk)
    ensures id == "" ==> StorageHttp.DeleteFile(cfg, id, send).sent == [] && DeleteFile(cfg, id, send).sent == [DeleteRequest(cfg, "")]
  {
  }

  /** An error-free RPC upload stores the concatenated messages and
      returns the id, when the backend takes the PUT. */
  lemma RpcUploadStores(cfg: Config, items: seq<Item>, id: string, put: Transport)
    requires forall i :: 0 <= i < |items| ==> items[i].Ok?
    requires put(PutRequest(cfg, id, Flatten(Messages(items)))).Ok?
    ensures UploadFile(cfg, items, Returned(id), put) == Exchange(Returned(Ok(id)), [PutRequest(cfg, id, Flatten(Messages(items)))])
  {
  }

  /** The RPC download of an object the backend returns gives its bytes. */
  lemma RpcDownloadReturns(cfg: Config, id: string, data: seq<byte>, get: Transport)
    requires id != "" && get(GetRequest(cfg, id)) == Ok(Response(200, Ok(data)))
    ensures GetFile(cfg, id, get).outcome.value.Ok?
    ensures Flatten(GetFile(cfg, id, get).outcome.value.value) == data
  {
  }

  /** An object stored by the RPC upload comes back through the RPC download
      unchanged, when the backend returns what was stored: the upload PUTs
      the concatenated messages, and the download's chunks concatenate to
      those bytes. */
  lemma RpcRoundTrip(cfg: Config, items: seq<Item>, id: string, put: Transport, get: Transport)
    requires id != "" && forall i :: 0 <= i < |items| ==> items[i].Ok?
    requires put(PutRequest(cfg, id, Flatten(Messages(items)))).Ok?
    requires get(GetRequest(cfg, id)) == Ok(Response(200, Ok(Flatten(Messages(items)))))
    ensures UploadFile(cfg, items, Returned(id), put) == Exchange(Returned(Ok(id)), [PutRequest(cfg, id, Flatten(Messages(items)))])
    ensures GetFile(cfg, id, get).outcome.value.Ok?
    ensures Flatten(GetFile(cfg, id, get).outcome.value.value) == Flatten(Messages(items))
  {
    RpcUploadStores(cfg, items, id, put);
    RpcDownloadReturns(cfg, id, Flatten(Messages(items)), get);
  }

  /** The RPC download does not decrypt: an object stored by the HTTP upload
      comes back as its whole envelope, the nonce followed by ciphertext
      and tag, 28 bytes longer than the plaintext for a sound cipher. */
  lemma RpcSeesEnvelope(cfg: Config, c: Cipher, key: Key, nonce: Nonce, plaintext: seq<byte>, id: string, get: Transport)
    requires Sound(c) && |plaintext| <= MaxPlaintext && id != ""
    requires get(GetRequest(cfg, id)) == Ok(Response(200, Ok(Seal(c, key, nonce, plaintext).value)))
    ensures GetFile(cfg, id, get).outcome.value.Ok?
    ensures var bytes := Flatten(GetFile(cfg, id, get).outcome.value.value);
            && bytes == Seal(c, key, nonce, plaintext).value
            && |bytes| == NonceLength + |plaintext| + TagLength
            && bytes[..NonceLength] == nonce
  {
    OpenSeal(c, key, nonce, plaintext);
  }
}
