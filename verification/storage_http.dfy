/** The gateway's three HTTP handlers: upload seals the file under the
    caller's key and stores the envelope under a fresh id; download fetches,
    splits and opens it; delete forwards the id. */
module StorageHttp {
  import opened Wrappers
  import opened Text
  import opened Http
  import opened Aead
  import opened Envelope
  import opened Backend

  type StorageReply = Reply<()>

  const EmptyId := "File id is empty"
  const EmptyKey := "Secret key is empty"
  const WrongKey := "Invalid secret key"
  const OctetStream := "application/octet-stream"

  /** A 400 with a text explanation. */
  function Rejection(message: string): (r: StorageReply)
    ensures r.status == StatusBadRequest && r.body == TextBody(message)
  {
    Plain(StatusBadRequest, TextBody(message))
  }

  /** The envelope upload stores for these inputs, when the cipher accepts
      the plaintext. */
  function Sealed(c: Cipher, key: Key, nonce: Nonce, contents: seq<byte>): (r: Option<seq<byte>>)
    ensures r.Some? <==> c.encrypt(key, nonce, contents).Some?
    ensures r.Some? ==> Split(r.value) == Some(Parts(nonce, c.encrypt(key, nonce, contents).value))
  {
    match c.encrypt(key, nonce, contents)
    case None => None
    case Some(sealed) => SplitBuild(nonce, sealed); Some(Build(nonce, sealed))
  }

  /** `upload`. `uuid` is the result of the allocation, which happens before
      anything else; `fileName` is the multipart file name; `nonce` is the
      fresh nonce drawn from the OS generator. The handler answers 200 with
      the id as body exactly when the key is valid, the cipher accepts the
      file and the PUT reaches the backend; whatever status the backend
      answers is not looked at. */
  function Upload(cfg: Config, c: Cipher, uuid: Outcome<string>, fileName: Option<string>,
                  contents: seq<byte>, secretKey: string, nonce: Nonce, send: Transport): (r: Exchange<StorageReply>)
    ensures uuid.Panicked? ==> r == Exchange(Panicked(uuid.message), [])
    ensures uuid.Returned? && fileName.None? ==> r == Exchange(Panicked(UnwrapNone), [])
    ensures uuid.Returned? && fileName.Some? && DecodeKey(secretKey).None? ==> r == Exchange(Returned(BareError()), [])
    ensures uuid.Returned? && fileName.Some? && DecodeKey(secretKey).Some?
            ==> (r.outcome.Panicked? <==> Sealed(c, DecodeKey(secretKey).value, nonce, contents).None?)
    ensures r.outcome.Returned? ==> r.outcome.value.status == StatusOk || r.outcome.value == BareError()
    ensures r.outcome.Returned? && r.outcome.value.status == StatusOk
            <==> && uuid.Returned? && fileName.Some? && DecodeKey(secretKey).Some?
                 && Sealed(c, DecodeKey(secretKey).value, nonce, contents).Some?
                 && send(PutRequest(cfg, uuid.value, Sealed(c, DecodeKey(secretKey).value, nonce, contents).value)).Ok?
    ensures uuid.Returned? && fileName.Some? && DecodeKey(secretKey).Some?
            && Sealed(c, DecodeKey(secretKey).value, nonce, contents).Some?
            ==> var put := PutRequest(cfg, uuid.value, Sealed(c, DecodeKey(secretKey).value, nonce, contents).value);
                && r.sent == [put]
                && r.outcome == Returned(if send(put).Ok? then Plain(StatusOk, TextBody(uuid.value)) else BareError())
    ensures r.outcome.Returned? && r.outcome.value.status == StatusOk
            ==> uuid.Returned? && r.outcome.value == Plain(StatusOk, TextBody(uuid.value))
  {
    match uuid
    case Panicked(m) => Exchange(Panicked(m), [])
    case Returned(id) =>
      if fileName.None? then Exchange(Panicked(UnwrapNone), [])
      else match DecodeKey(secretKey)
        case None => Exchange(Returned(BareError()), [])
        case Some(key) =>
          match Sealed(c, key, nonce, contents)
          case None => Exchange(Panicked(UnwrapErr), [])
          case Some(envelope) =>
            var put := PutRequest(cfg, id, envelope);
            if send(put).Ok? then Exchange(Returned(Plain(StatusOk, TextBody(id))), [put])
            else Exchange(Returned(BareError()), [put])
  }

  /** The headers of a successful download. */
  function AttachmentHeaders(id: string): seq<(string, string)> {
    [("content-type", OctetStream), ("Content-Disposition", "attachment; filename=\"" + id + "\"")]
  }

  /** The part of `download_file` after the body has been read and split:
      decryption failure is the client's fault (400), success is the
      plaintext as an attachment. */
  function OpenParts(c: Cipher, key: Key, id: string, parts: Parts): (r: StorageReply)
    ensures r.status == StatusOk <==> c.decrypt(key, parts.nonce, parts.sealed).Some?
    ensures r.status == StatusOk ==> r == Reply(StatusOk, AttachmentHeaders(id), BytesBody(c.decrypt(key, parts.nonce, parts.sealed).value))
    ensures r.status != StatusOk ==> r == Rejection(WrongKey)
  {
    match c.decrypt(key, parts.nonce, parts.sealed)
    case None => Rejection(WrongKey)
    case Some(data) => Reply(StatusOk, AttachmentHeaders(id), BytesBody(data))
  }

  /** Panic message of a slice whose end lies past the data. */
  function SliceEndPanic(len: nat): string {
    "range end index 12 out of range for slice of length " + Decimal(len)
  }

  /** `download_file` as written: the body is sliced at byte 12 with no
      length check, so a stored object shorter than a nonce panics the
      handler. */
  function DownloadFile(cfg: Config, c: Cipher, id: string, secretKey: string, send: Transport): (r: Exchange<StorageReply>)
    ensures id == "" ==> r == Exchange(Returned(Rejection(EmptyId)), [])
    ensures id != "" && secretKey == "" ==> r == Exchange(Returned(Rejection(EmptyKey)), [])
    ensures id != "" && secretKey != "" && DecodeKey(secretKey).None? ==> r == Exchange(Returned(BareError()), [])
    ensures id != "" && DecodeKey(secretKey).Some? ==> r.sent == [GetRequest(cfg, id)]
    ensures r.outcome.Panicked?
            <==> && id != "" && DecodeKey(secretKey).Some?
                 && send(GetRequest(cfg, id)).Ok? && send(GetRequest(cfg, id)).value.body.Ok?
                 && |send(GetRequest(cfg, id)).value.body.value| < NonceLength
    ensures r.outcome.Returned? && r.outcome.value.status == StatusOk
            <==> && id != "" && DecodeKey(secretKey).Some?
                 && send(GetRequest(cfg, id)).Ok? && send(GetRequest(cfg, id)).value.body.Ok?
                 && Open(c, DecodeKey(secretKey).value, send(GetRequest(cfg, id)).value.body.value).Some?
    ensures r.outcome.Returned? && r.outcome.value.status == StatusOk
            ==> r.outcome.value == Reply(StatusOk, AttachmentHeaders(id), BytesBody(Open(c, DecodeKey(secretKey).value, send(GetRequest(cfg, id)).value.body.value).value))
    ensures id != "" && DecodeKey(secretKey).Some? && (send(GetRequest(cfg, id)).Err? || send(GetRequest(cfg, id)).value.body.Err?)
            ==> r.outcome == Returned(BareError())
    ensures id != "" && DecodeKey(secretKey).Some? && send(GetRequest(cfg, id)).Ok? && send(GetRequest(cfg, id)).value.body.Ok?
            && |send(GetRequest(cfg, id)).value.body.value| >= NonceLength
            && Open(c, DecodeKey(secretKey).value, send(GetRequest(cfg, id)).value.body.value).None?
            ==> r.outcome == Returned(Rejection(WrongKey))
  {
    if id == "" then Exchange(Returned(Rejection(EmptyId)), [])
    else if secretKey == "" then Exchange(Returned(Rejection(EmptyKey)), [])
    else match DecodeKey(secretKey)
      case None => Exchange(Returned(BareError()), [])
      case Some(key) =>
        var get := GetRequest(cfg, id);
        match send(get)
        case Err(_) => Exchange(Returned(BareError()), [get])
        case Ok(response) =>
          match response.body
          case Err(_) => Exchange(Returned(BareError()), [get])
          case Ok(bytes) =>
            match Split(bytes)
            case None => Exchange(Panicked(SliceEndPanic(|bytes|)), [get])
            case Some(parts) => Exchange(Returned(OpenParts(c, key, id, parts)), [get])
  }

  /** `download_file` with the length check the nonce conversion was meant
      to provide: a body shorter than a nonce is a server-side failure. */
  function DownloadFileChecked(cfg: Config, c: Cipher, id: string, secretKey: string, send: Transport): (r: Exchange<StorageReply>)
    ensures r.outcome.Returned?
    ensures id == "" ==> r == Exchange(Returned(Rejection(EmptyId)), [])
    ensures id != "" && secretKey == "" ==> r == Exchange(Returned(Rejection(EmptyKey)), [])
    ensures id != "" && secretKey != "" && DecodeKey(secretKey).None? ==> r == Exchange(Returned(BareError()), [])
    ensures id != "" && DecodeKey(secretKey).Some? ==> r.sent == [GetRequest(cfg, id)]
    ensures r.outcome.value.status == StatusOk
            <==> && id != "" && DecodeKey(secretKey).Some?
                 && send(GetRequest(cfg, id)).Ok? && send(GetRequest(cfg, id)).value.body.Ok?
                 && Open(c, DecodeKey(secretKey).value, send(GetRequest(cfg, id)).value.body.value).Some?
    ensures r.outcome.value.status == StatusOk
            ==> r.outcome.value == Reply(StatusOk, AttachmentHeaders(id), BytesBody(Open(c, DecodeKey(secretKey).value, send(GetRequest(cfg, id)).value.body.value).value))
    ensures id != "" && DecodeKey(secretKey).Some? && (send(GetRequest(cfg, id)).Err? || send(GetRequest(cfg, id)).value.body.Err?)
            ==> r.outcome == Returned(BareError())
    ensures id != "" && DecodeKey(secretKey).Some? && send(GetRequest(cfg, id)).Ok? && send(GetRequest(cfg, id)).value.body.Ok?
            && |send(GetRequest(cfg, id)).value.body.value| >= NonceLength
            && Open(c, DecodeKey(secretKey).value, send(GetRequest(cfg, id)).value.body.value).None?
            ==> r.outcome == Returned(Rejection(WrongKey))
    ensures id != "" && DecodeKey(secretKey).Some? && send(GetRequest(cfg, id)).Ok? && send(GetRequest(cfg, id)).value.body.Ok?
            && |send(GetRequest(cfg, id)).value.body.value| < NonceLength
            ==> r.outcome == Returned(BareError())
    ensures r.outcome.value.status == StatusBadRequest && id != "" && secretKey != "" ==> r.outcome.value == Rejection(WrongKey)
  {
    if id == "" then Exchange(Returned(Rejection(EmptyId)), [])
    else if secretKey == "" then Exchange(Returned(Rejection(EmptyKey)), [])
    else match DecodeKey(secretKey)
      case None => Exchange(Returned(BareError()), [])
      case Some(key) =>
        var get := GetRequest(cfg, id);
        match send(get)
        case Err(_) => Exchange(Returned(BareError()), [get])
        case Ok(response) =>
          match response.body
          case Err(_) => Exchange(Returned(BareError()), [get])
          case Ok(bytes) =>
            match Split(bytes)
            case None => Exchange(Returned(BareError()), [get])
            case Some(parts) => Exchange(Returned(OpenParts(c, key, id, parts)), [get])
  }

  /** A stored object of fewer than 12 bytes panics the handler as written,
      while the checked handler answers 500. */
  lemma ShortObjectPanics(cfg: Config, c: Cipher, id: string, secretKey: string)
    requires id != "" && DecodeKey(secretKey).Some?
    ensures var send: Transport := _ => Ok(Response(200, Ok([])));
            && DownloadFile(cfg, c, id, secretKey, send).outcome == Panicked(SliceEndPanic(0))
            && DownloadFileChecked(cfg, c, id, secretKey, send).outcome == Returned(BareError())
  {
  }

  /** `delete_file`: 400 for an empty id, otherwise whatever the backend
      answers is a 200 and only a transport failure is a 500. */
  function DeleteFile(cfg: Config, id: string, send: Transport): (r: Exchange<StorageReply>)
    ensures id == "" ==> r == Exchange(Returned(Rejection(EmptyId)), [])
    ensures id != "" ==> r.sent == [DeleteRequest(cfg, id)]
    ensures id != "" ==> r.outcome == Returned(if send(DeleteRequest(cfg, id)).Ok? then Plain(StatusOk, NoBody) else BareError())
  {
    if id == "" then Exchange(Returned(Rejection(EmptyId)), [])
    else
      var del := DeleteRequest(cfg, id);
      match send(del)
      case Ok(_) => Exchange(Returned(Plain(StatusOk, NoBody)), [del])
      case Err(_) => Exchange(Returned(BareError()), [del])
  }

  /** The backend's status codes never reach the client: transports that
      differ only in the statuses they report give every handler the same
      result. */
  lemma BackendStatusIgnored(cfg: Config, c: Cipher, uuid: Outcome<string>, fileName: Option<string>,
                             contents: seq<byte>, id: string, secretKey: string, nonce: Nonce, a: Transport, b: Transport)
    requires SameButStatus(a, b)
    ensures Upload(cfg, c, uuid, fileName, contents, secretKey, nonce, a) == Upload(cfg, c, uuid, fileName, contents, secretKey, nonce, b)
    ensures DownloadFile(cfg, c, id, secretKey, a) == DownloadFile(cfg, c, id, secretKey, b)
    ensures DeleteFile(cfg, id, a) == DeleteFile(cfg, id, b)
  {
  }

  /** End to end: a file uploaded with a key comes back unchanged when
      downloaded with the same key from a backend that returns what was
      stored, for a sound cipher and any file within the GCM limit. */
  lemma UploadThenDownload(cfg: Config, c: Cipher, id: string, fileName: string, contents: seq<byte>,
                           secretKey: string, nonce: Nonce, put: Transport, get: Transport)
    requires Sound(c) && |contents| <= MaxPlaintext && id != ""
    requires Upload(cfg, c, Returned(id), Some(fileName), contents, secretKey, nonce, put).outcome.Returned?
    requires Upload(cfg, c, Returned(id), Some(fileName), contents, secretKey, nonce, put).outcome.value.status == StatusOk
    requires get(GetRequest(cfg, id)).Ok?
    requires get(GetRequest(cfg, id)).value.body
             == Ok(Upload(cfg, c, Returned(id), Some(fileName), contents, secretKey, nonce, put).sent[0].body)
    ensures DownloadFile(cfg, c, id, secretKey, get) == Exchange(Returned(Reply(StatusOk, AttachmentHeaders(id), BytesBody(contents))), [GetRequest(cfg, id)])
  {
    var key := DecodeKey(secretKey).value;
    OpenSeal(c, key, nonce, contents);
    var sealed := c.encrypt(key, nonce, contents).value;
    SplitBuild(nonce, sealed);
  }
}
