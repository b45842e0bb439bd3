/** Start-up settings shared by both services (log level from `RUST_ENV`,
    the JSON extractor configuration and its error replies) and the two RPC
    interceptors. */
module Server {
  import opened Wrappers
  import opened Text
  import opened Http
  import opened Rpc

  datatype Level = Error | Warn | Info | Debug | Trace

  /** The value `RUST_ENV` takes when it is unset. */
  const DefaultRustEnv := "info"

  /** The lower-case name of each level, as matched against `RUST_ENV`. */
  function LevelName(l: Level): string {
    match l
    case Error => "error"
    case Warn => "warn"
    case Info => "info"
    case Debug => "debug"
    case Trace => "trace"
  }

  /** The log filter for a `RUST_ENV` value: the level of that exact name,
      and `Info` for any other string. */
  function LevelOf(env: string): (r: Level)
    ensures LevelName(r) == env || (r == Info && forall l :: LevelName(l) != env)
  {
    if env == "error" then Error
    else if env == "warn" then Warn
    else if env == "debug" then Debug
    else if env == "trace" then Trace
    else Info
  }

  /** Each level is selected by its own name, so the mapping loses none of
      them; and the default setting selects `Info`. */
  lemma LevelOfName(l: Level)
    ensures LevelOf(LevelName(l)) == l
    ensures LevelOf(DefaultRustEnv) == Info
  {
  }

  /** A parsed `Content-Type`: its type, its subtype and the structured
      syntax suffix after a `+` (`ld` and `json` in `application/ld+json`),
      all lower-case as the `mime` crate stores them. */
  datatype Mime = Mime(kind: string, subtype: string, suffix: Option<string>)

  /** The JSON body limit, in bytes. */
  const JsonLimit := 2048

  /** The content-type predicate the services configure. */
  predicate ConfiguredMime(m: Mime) {
    m.kind == "application" && m.subtype == "json"
  }

  /** actix-web 4's test for a JSON body: its own check on the subtype and
      the suffix, or the configured predicate. The predicate widens the
      test and cannot narrow it. */
  predicate AcceptsMime(m: Mime) {
    m.subtype == "json" || m.suffix == Some("json") || ConfiguredMime(m)
  }

  /** The configured predicate adds nothing to actix's own check, so types
      it was evidently meant to refuse, `text/json` and
      `application/ld+json`, are accepted all the same. */
  lemma ConfiguredMimeSubsumed(m: Mime)
    ensures AcceptsMime(m) <==> m.subtype == "json" || m.suffix == Some("json")
    ensures AcceptsMime(Mime("text", "json", None)) && !ConfiguredMime(Mime("text", "json", None))
    ensures AcceptsMime(Mime("application", "ld", Some("json")))
    ensures !AcceptsMime(Mime("text", "plain", None))
  {
  }

  /** The failures the JSON extractor reports. */
  datatype JsonPayloadError =
    | ContentType
    | Overflow(limit: nat)
    | Deserialize(detail: string)
    | Payload(detail: string)

  /** The header actix's `InternalError` sets on the reply it renders. */
  const TextPlainUtf8 := ("content-type", "text/plain; charset=utf-8")

  /** The configured error handler: every extractor failure is a 400
      (`error::ErrorBadRequest`) whose text names the failure kind. */
  function JsonErrorReply<J>(err: JsonPayloadError): (r: Reply<J>)
    ensures r.status == StatusBadRequest && r.headers == [TextPlainUtf8]
    ensures r.body == TextBody("Invalid content type") <==> err.ContentType?
    ensures r.body == TextBody("Invalid body") <==> err.Deserialize?
    ensures r.body == TextBody("Unknown error") <==> !(err.ContentType? || err.Deserialize?)
  {
    var text := match err
                case ContentType => "Invalid content type"
                case Deserialize(_) => "Invalid body"
                case _ => "Unknown error";
    Reply(StatusBadRequest, [TextPlainUtf8], TextBody(text))
  }

  /** A JSON body reaches a handler only with an accepted content type and at
      most `JsonLimit` bytes; `parse` is the serde deserialiser. A missing
      or unparsable `Content-Type` is `None` and counts as a wrong type. */
  function ExtractJson<T>(mime: Option<Mime>, body: seq<byte>, parse: seq<byte> -> Option<T>): (r: Result<T, JsonPayloadError>)
    ensures r.Ok? <==> mime.Some? && AcceptsMime(mime.value) && |body| <= JsonLimit && parse(body).Some?
    ensures r.Ok? ==> r.value == parse(body).value
    ensures r == Err(ContentType) <==> mime.None? || !AcceptsMime(mime.value)
  {
    if mime.None? || !AcceptsMime(mime.value) then Err(ContentType)
    else if |body| > JsonLimit then Err(Overflow(JsonLimit))
    else match parse(body)
      case Some(v) => Ok(v)
      case None => Err(Deserialize("invalid JSON"))
  }

  /** What the client sees for a JSON request: the handler's reply when the
      body was extracted, otherwise a 400 naming the failure. */
  lemma RejectedJsonIsBadRequest<T, J>(mime: Option<Mime>, body: seq<byte>, parse: seq<byte> -> Option<T>)
    requires ExtractJson(mime, body, parse).Err?
    ensures JsonErrorReply<J>(ExtractJson(mime, body, parse).error).status == StatusBadRequest
    ensures |body| > JsonLimit && mime.Some? && AcceptsMime(mime.value)
            ==> JsonErrorReply<J>(ExtractJson(mime, body, parse).error).body == TextBody("Unknown error")
  {
  }

  const AuthKey := "authorization"
  const NoAuthMetadata := "No authorization metadata found"
  const NoValidToken := "No valid auth token"

  /** The storage service's interceptor: the `authorization` entry must be
      present and non-empty; its content is not compared with anything.
      A value that is not visible ASCII makes `to_str().unwrap()` panic. */
  function StorageCheckAuth(md: Metadata): (r: Outcome<Result<Metadata, Status>>)
    ensures Lookup(md, AuthKey).None? ==> r == Returned(Err(Status(Unauthenticated, NoAuthMetadata)))
    ensures r.Panicked? <==> Lookup(md, AuthKey).Some? && ToStr(Lookup(md, AuthKey).value).Err?
    ensures r.Returned? && r.value.Ok? ==> r.value.value == md
    ensures r.Returned? && r.value.Err? ==> r.value.error.code == Unauthenticated
  {
    match Lookup(md, AuthKey)
    case None => Returned(Err(Status(Unauthenticated, NoAuthMetadata)))
    case Some(v) =>
      match ToStr(v)
      case Err(_) => Panicked(UnwrapErr)
      case Ok(token) =>
        if token == "" then Returned(Err(Status(Unauthenticated, NoValidToken)))
        else Returned(Ok(md))
  }

  /** A request is admitted exactly when its first `authorization` value is
      non-empty visible ASCII, whatever that value says. */
  lemma StorageAuthAdmits(md: Metadata)
    ensures StorageCheckAuth(md) == Returned(Ok(md))
            <==> Lookup(md, AuthKey).Some? && |Lookup(md, AuthKey).value| > 0
                 && forall i :: 0 <= i < |Lookup(md, AuthKey).value| ==> IsVisible(Lookup(md, AuthKey).value[i])
    ensures Lookup(md, AuthKey) == Some([]) ==> StorageCheckAuth(md) == Returned(Err(Status(Unauthenticated, NoValidToken)))
  {
  }

  /** The catalog service's interceptor admits every request unchanged. */
  function StoreCheckAuth(md: Metadata): (r: Result<Metadata, Status>)
    ensures r.Ok? && r.value == md
  {
    Ok(md)
  }

  /** The catalog's gate is strictly weaker than the storage gate: whatever
      the storage service admits the catalog admits unchanged, and a request
      with no `authorization` entry at all, which the storage service
      refuses, passes the catalog. */
  lemma CatalogGateAdmitsMore(md: Metadata)
    ensures StorageCheckAuth(md) == Returned(Ok(md)) ==> StoreCheckAuth(md) == Ok(md)
    ensures Lookup(md, AuthKey).None?
            ==> StoreCheckAuth(md) == Ok(md) && StorageCheckAuth(md) == Returned(Err(Status(Unauthenticated, NoAuthMetadata)))
    ensures StoreCheckAuth([]) == Ok([]) && StorageCheckAuth([]).value.Err?
  {
  }
}
