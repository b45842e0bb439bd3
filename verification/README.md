# Encrypted storage gateway and file catalog, in Dafny

This project models two Rust services and the Angular page that drives them.

- **rustystorage** is an encrypting gateway in front of an object store.
  - Its HTTP `upload` seals a file with AES-256-GCM under a caller-supplied hex key. It stores the 12-byte nonce followed by the AEAD output under a freshly allocated UUID.
  - `download_file` fetches that envelope, splits it at byte 12 and opens it.
  - `delete_file` forwards the id.
  - Its gRPC service moves raw bytes with no encryption. It reassembles inbound streams and cuts outbound data into 1024-byte chunks.
  - A presence check on the `authorization` metadata guards the RPC side.
- **rustystore** is a catalog of file records and tags.
  - Its domain layer panics on blank input (`trim().is_empty()`) and otherwise passes the database's answer through.
  - `file::insert` walks the tag list. It creates each tag and links the file only to tags that already existed.
  - Its HTTP controllers and gRPC services validate the input and map database errors to statuses.
- **store.component.ts** is the browser page. It generates and validates the hex key, toggles row selection, and starts downloads and deletions.

Network, database and cryptography are oracles:
- the object store is a `Backend.Transport` function from request to answer;
- the catalog database is a `Catalog.Database` record of query functions, each of which sees the queries issued earlier in the same request;
- AES-GCM is an `Aead.Cipher` record of encrypt/decrypt functions. Round trips through it are proved for any cipher satisfying `Aead.Sound`. That predicate requires encryption to succeed on every plaintext up to the NIST SP 800-38D limit of 2^36 - 32 bytes, to add a 16-byte tag, and to decrypt back. It does not say where encryption starts to fail: the `aes-gcm` crate refuses only plaintexts over 2^36 bytes, and it satisfies the predicate too.

A handler's result records the calls it made (`Exchange.sent`, `Run.calls`), so query order is stated directly. For the gateway's `upload`, `sent` starts after the id allocation: the HEAD probes of `generate_uuid` run first, and they belong to `Backend.GenerateUuid`. A Rust panic is the `Panicked(message)` outcome. Values the code draws from the environment are parameters:
- the allocated UUID;
- the nonce;
- the 32 random key bytes;
- the `RUST_ENV` text;
- the multipart file name.

Dafny's `Text.IsBlank` is Rust's `s.trim().is_empty()` over the Unicode White_Space set. It is stated directly as "every character is white space", and `Text.TrimEmptyIffBlank` proves that this agrees with trimming. `Hex.Decode` is `hex::decode` (Base16, section 8 of RFC 4648, both letter cases).

## Model

| member | source | states |
|---|---|---|
| Hex.Decode | rustystorage/src/file/controllers.rs:66-72 | decoding succeeds exactly for even-length all-hex text. Each output byte is the value of its digit pair. Odd length is the OddLength error, and otherwise the first non-hex character is reported with its index |
| Aead.DecodeKey | rustystorage/src/file/controllers.rs:66-79 | a wire key is usable exactly when it is 64 hex digits, and the key is the hex decoding of the text |
| Envelope.Build | rustystorage/src/file/controllers.rs:95-98 | the stored envelope is 12 bytes longer than the AEAD output |
| Envelope.Split | rustystorage/src/file/controllers.rs:159-160 | a body can be split exactly when it holds at least 12 bytes. The sealed part is the remainder |
| Envelope.SplitBuild | rustystorage/src/file/controllers.rs:95-98 | splitting at byte 12 gives back the nonce and sealed bytes that upload concatenated |
| Envelope.BuildSplit | rustystorage/src/file/controllers.rs:159-160 | any body of 12 or more bytes is the concatenation of its two parts |
| Envelope.OpenSeal | rustystorage/src/file/controllers.rs:88-98 | for a sound cipher and a plaintext within the GCM limit, the envelope exists, has 12 + plaintext + 16 bytes, and opens back to the plaintext |
| StorageHttp.Sealed | rustystorage/src/file/controllers.rs:88-98 | the envelope exists exactly when encryption succeeds, and it splits back into the nonce and the ciphertext |
| StorageHttp.Upload | rustystorage/src/file/controllers.rs:58-112 | a panicking allocation panics the handler whatever the key. A missing file name panics. A bad key is a 500 with no call after the allocation. An encryption failure panics. Otherwise the envelope is always PUT once under the uuid, and the reply is 200 with the uuid as body when that PUT gets any HTTP answer, else a bare 500. Every 200 carries the uuid |
| StorageHttp.OpenParts | rustystorage/src/file/controllers.rs:174-195 | decryption failure is 400 "Invalid secret key". Success is 200 with octet-stream and attachment headers and the plaintext as body |
| StorageHttp.DownloadFile | rustystorage/src/file/controllers.rs:126-202 | the checks run in order: empty id (400), empty key (400), then a bad key (500 with no fetch). Otherwise there is exactly one GET. A failed fetch or body read is a bare 500. The handler panics exactly when the body has fewer than 12 bytes. A body of 12 or more bytes that does not open is 400 "Invalid secret key". It answers 200 with the plaintext as an attachment exactly when fetch, body read and decryption all succeed |
| StorageHttp.DownloadFileChecked | rustystorage/src/file/controllers.rs:126-202 | the same contract as DownloadFile, except that the handler always returns: a body shorter than 12 bytes is a bare 500 |
| StorageHttp.ShortObjectPanics | rustystorage/src/file/controllers.rs:159-168 | an empty stored object panics download_file with the slice-bound message. The checked handler answers 500 |
| StorageHttp.DeleteFile | rustystorage/src/file/controllers.rs:216-231 | an empty id is 400 with no call. Otherwise there is one DELETE: any HTTP answer gives 200 and only a transport failure gives 500 |
| StorageHttp.BackendStatusIgnored | rustystorage/src/file/file.rs:27-48 | transports that differ only in HTTP status give upload, download and delete identical results |
| StorageHttp.UploadThenDownload | rustystorage/src/file/controllers.rs:58-202 | a file uploaded with a key downloads unchanged with the same key, when the backend returns what was stored |
| Backend.ObjectIdOfUrl | rustystorage/src/file/file.rs:13 | the object URL names the id it was built from: parsing the template back yields the id |
| Backend.ObjectUrlInjective | rustystorage/src/file/file.rs:13 | two ids with the same object URL are equal |
| Backend.OneUrlTemplate | rustystorage/src/file/file.rs:13-48 | HEAD, GET, DELETE and PUT all address the same URL for an id. The PUT body is the data unchanged |
| Backend.CheckIfExists | rustystorage/src/file/file.rs:11-25 | the probe panics exactly on a transport error, and otherwise reports true exactly for a 2xx status |
| Backend.CheckIfExistsOnStore | rustystorage/src/file/file.rs:11-25 | against a backend holding a set of objects, the probe reports exactly whether the id is in the set |
| Backend.GenerateUuid | rustystorage/src/file/file.rs:51-65 | every discarded candidate was reported as existing. A returned id is the last candidate drawn and was probed free. A panic is the probe's panic on the last candidate |
| Stream.Chunks | rustystorage/src/file/grpc.rs:156-165 | there are ceil(n/1024) chunks, each of 1 to 1024 bytes and all but the last exactly 1024, and they concatenate back to the data |
| Stream.Reassemble | rustystorage/src/file/grpc.rs:57-69 | reassembly succeeds exactly when every item is a message, yielding their concatenation in arrival order. A failure carries the error of some item |
| Stream.ChunkRoundTrip | rustystorage/src/file/grpc.rs:156-175 | reassembling the chunks the producer emits gives back the data |
| Stream.BoundariesIrrelevant | rustystorage/src/file/grpc.rs:57-69 | two chunkings of the same bytes reassemble to the same result |
| Stream.Produce | rustystorage/src/file/grpc.rs:158-176 | the producer stops at the first refused send. What it delivered is the prefix of the chunk sequence the receiver accepted, in order |
| StorageGrpc.UploadFile | rustystorage/src/file/grpc.rs:52-87 | a stream error is Internal with no allocation and no call. A panicking allocation panics. Otherwise there is exactly one PUT of the concatenated messages under the uuid, and the uuid is returned exactly when the PUT reaches the backend |
| StorageGrpc.EncodedJoin | rustystorage/src/file/grpc.rs:99-109 | the bytes update_file reassembles are the UTF-8 encoding of the whole text, however it was split into messages |
| StorageGrpc.UpdateFile | rustystorage/src/file/grpc.rs:90-123 | a missing "uuid" metadata entry panics, as does a value that is not visible ASCII. No id is allocated. An error-free stream is always PUT once, as the UTF-8 of the joined text under the metadata's id, and the result is Ok or Internal with the transport's message. A stream error is Internal with that error's message and no call |
| StorageGrpc.GetFile | rustystorage/src/file/grpc.rs:126-186 | an empty path is NotFound with no call, and a failed fetch is NotFound "Download error". A failed body read is exactly the Internal case, with the read error's message. A successful fetch and read always succeed, with the 1024-byte chunking of the stored bytes |
| StorageGrpc.DeleteFile | rustystorage/src/file/grpc.rs:189-208 | one DELETE with no validation. It succeeds exactly when the transport succeeds, and otherwise is Internal with the transport's message |
| StorageGrpc.DeleteAgreesWithHttp | rustystorage/src/file/grpc.rs:189-208 | for a non-empty id the RPC and HTTP deletes send the same DELETE and succeed on the same answers. For an empty id only HTTP refuses, and the RPC still sends a DELETE |
| StorageGrpc.RpcRoundTrip | rustystorage/src/file/grpc.rs:52-186 | bytes uploaded over RPC come back over RPC unchanged |
| StorageGrpc.RpcSeesEnvelope | rustystorage/src/file/grpc.rs:148-165 | an object stored by the HTTP upload comes back over RPC undecrypted: 28 bytes longer than the plaintext and starting with the nonce |
| Rpc.Lookup | rustystorage/src/bin/main.rs:211 | the lookup finds a value exactly when some entry has the key, and the value is that of the first such entry |
| Rpc.ToStr | rustystorage/src/bin/main.rs:219 | the conversion succeeds exactly when every byte is visible ASCII or tab, and the text has the bytes as its characters |
| Server.StorageCheckAuth | rustystorage/src/bin/main.rs:210-237 | missing metadata is Unauthenticated. A non-ASCII value panics the unwrap. An accepted request passes through unchanged, and every rejection is Unauthenticated |
| Server.StorageAuthAdmits | rustystorage/src/bin/main.rs:221-230 | a request is admitted exactly when the token is present, visible and non-empty, whatever its content. An empty token is "No valid auth token" |
| Server.CatalogGateAdmitsMore | rustystore/src/bin/main.rs:235-236 | the catalog's gate admits every request unchanged: everything the storage gate admits, and also requests with no `authorization` entry, which the storage gate refuses |
| Server.LevelOf | rustystorage/src/bin/main.rs:59-66 | the level is the one whose name is the setting, and Info when no level has that name |
| Server.LevelOfName | rustystore/src/bin/main.rs:63-70 | each level's own name selects it, and the default setting "info" selects Info |
| Server.JsonErrorReply | rustystorage/src/bin/main.rs:109-122 | every JSON error is a 400 with a text/plain UTF-8 content type. The body is "Invalid content type" exactly for ContentType, "Invalid body" exactly for Deserialize, and "Unknown error" otherwise |
| Server.ExtractJson | rustystore/src/bin/main.rs:90-110 | a body is accepted exactly when actix accepts the type, the body is at most 2048 bytes and it parses. A bad type is exactly the ContentType error |
| Server.ConfiguredMimeSubsumed | rustystore/src/bin/main.rs:92-95 | actix accepts a type whose subtype or suffix is json, or that the configured predicate accepts. The configured application/json test adds nothing, so text/json and application/ld+json are accepted too |
| Server.RejectedJsonIsBadRequest | rustystorage/src/bin/main.rs:103-123 | every rejected body gets a 400, and an oversized body is rejected even when correctly typed |
| StoreComponent.ByteToHex | store/src/app/store/store.component.ts:111 | a byte is written as its two lower-case hex digits, high nibble first |
| StoreComponent.BytesToHex | store/src/app/store/store.component.ts:109-113 | the output has two characters per byte, and pair i is byte i's hex form |
| StoreComponent.DecodeBytesToHex | store/src/app/store/store.component.ts:109-113 | the server's hex decoder reads back exactly the bytes the browser encoded |
| StoreComponent.ValidKeyIsServerKey | store/src/app/store/store.component.ts:115-118 | the browser's key check accepts exactly the strings the server decodes to a 32-byte key |
| StoreComponent.GenerateSecretKey | store/src/app/store/store.component.ts:96-107 | a generated key passes the browser check and decodes on the server to the random bytes drawn |
| StoreComponent.MasterToggle | store/src/app/store/store.component.ts:185-203 | when the counts match, no shown row stays selected. Otherwise every shown row ends selected. Rows not shown keep their state |
| StoreComponent.MasterToggleByRows | store/src/app/store/store.component.ts:191-203 | with the membership test, the toggle deselects all shown rows exactly when all were selected, and otherwise selects them all |
| StoreComponent.MasterToggleByRowsTwice | store/src/app/store/store.component.ts:191-203 | toggling twice restores a selection that held all of the shown rows or none of them; a partial selection such as {1} over rows [1, 2] ends empty |
| StoreComponent.StaleSelectionToggle | store/src/app/store/store.component.ts:185-189 | a stale selection of as many rows as are shown makes the toggle a no-op. The corrected toggle selects the shown rows |
| StoreComponent.CountTestSound | store/src/app/store/store.component.ts:185-189 | for distinct rows and a selection of shown rows only, the count test and the membership test agree |
| StoreComponent.DownloadFile | store/src/app/store/store.component.ts:205-211 | an empty identifier does nothing. Otherwise there is one download with the current key |
| StoreComponent.DeleteFile | store/src/app/store/store.component.ts:213-244 | an empty identifier does nothing. Otherwise the catalog entry is removed, then the object deleted, both under that identifier |
| PageCalls.StartedDownloadReachesBackend | store/src/app/store/store.component.ts:205-211 | a download the page starts passes the gateway's id check. With a key the page accepts, the gateway sends one GET for that object. With a non-empty key the page rejects, the gateway answers 500 without a call |
| PageCalls.DeleteReachesBothServices | store/src/app/store/store.component.ts:213-244 | a deletion from the page makes the gateway DELETE the object with that identifier, and, for a non-blank identifier, makes the catalog delete the row with the same identifier |
| TagDomain.CreateTag | rustystore/src/tag/tag.rs:21-34 | it panics exactly on a blank name, with "Tagname is empty", and otherwise issues one query whose answer is returned unchanged |
| TagDomain.RemoveTag | rustystore/src/tag/tag.rs:36-49 | it panics exactly on a blank name and otherwise returns the single query's answer |
| TagDomain.LinkFileWithTag | rustystore/src/tag/tag.rs:50-66 | it panics exactly when either input is blank, checking the file id first. Otherwise the row count is dropped and errors pass through |
| TagDomain.GetTagsOfFile | rustystore/src/tag/tag.rs:78-91 | it panics exactly on a blank file id, and otherwise returns the single query's answer |
| TagDomain.RemoveTagFromFile | rustystore/src/tag/tag.rs:92-108 | it panics exactly when either input is blank, checking the file id first, and otherwise returns the answer unchanged |
| TagDomain.GetFilesTaggedWith | rustystore/src/tag/tag.rs:109-122 | it panics exactly on a blank tag name, and otherwise returns the single query's answer |
| FileDomain.WalkTags | rustystore/src/file/file.rs:49-75 | the tag loop panics exactly at the first blank tag, having created each earlier tag in order. A link is issued right after a duplicate-key answer, and only then |
| Text.TrimEmptyIffBlank | rustystore/src/file/file.rs:27 | `trim()` leaves the empty string exactly when every character has the White_Space property |
| FileDomain.Insert | rustystore/src/file/file.rs:21-83 | blank name, blank identifier, negative size and blank mime type panic in that order. The row written carries the input's columns. A write error is returned unchanged with no tag queries. After a successful write the result is Ok(()) whatever the tag queries answer, unless a tag is blank |
| FileDomain.ValidInsertPanicsOnTag | rustystore/src/file/file.rs:47-75 | once the payload passes the checks, the only panic left is a blank tag name |
| FileDomain.Remove | rustystore/src/file/file.rs:85-107 | a blank identifier panics. Otherwise the lookup and the delete are both issued, and the delete's answer is returned |
| FileDomain.RemoveIgnoresLookup | rustystore/src/file/file.rs:91-97 | the lookup's answer cannot change what remove returns |
| FileControllers.Insert | rustystore/src/file/controllers.rs:37-65 | an empty name, an empty identifier, a negative size and an empty mime type are 422s in that order, each with its own message and no query. Otherwise the domain's panic propagates. A duplicate key is 422 "File already exists", another error a 500, success a 200 |
| FileControllers.BlankNamePanics | rustystore/src/file/controllers.rs:38-40 | a name of one space gets past the controller and panics the request in the domain layer |
| FileControllers.InsertChecked | rustystore/src/file/controllers.rs:37-65 | with trimmed checks, every payload the domain would reject is a 422 with no query, and only a blank tag can still panic |
| FileControllers.Remove | rustystore/src/file/controllers.rs:77-92 | a blank id is 422 with no query. Otherwise 200 exactly when the delete succeeds, else 500. It never panics |
| FileControllers.List | rustystore/src/file/controllers.rs:95-106 | one query. The rows are returned as JSON with a 200, or a bare 500 |
| FileControllers.Get | rustystore/src/file/controllers.rs:118-133 | a blank id is 422 with no query. Otherwise the row is returned as JSON or a 500. It never panics |
| TagControllers.CreateTag | rustystore/src/tag/controllers.rs:38-56 | an empty name is 422. The handler panics exactly for a non-empty blank name. A duplicate is 422 "Tag already exists", another error the text 500, and success the tag as JSON |
| TagControllers.SpaceTagPanics | rustystore/src/tag/controllers.rs:39-43 | the name " " panics create_tag before any query |
| TagControllers.CreateTagChecked | rustystore/src/tag/controllers.rs:38-56 | with the trimmed check the handler never panics, and a blank name is 422 |
| TagControllers.CheckedAgreesOffBlank | rustystore/src/tag/controllers.rs:38-56 | the corrected handler differs from the original only on non-empty blank names |
| TagControllers.RemoveTag | rustystore/src/tag/controllers.rs:68-83 | a blank name is 422 with no query. Otherwise 200 or the text 500. It never panics |
| TagControllers.LinkFileWithTag | rustystore/src/tag/controllers.rs:95-113 | the file id is checked before the tag name, each giving 422. Otherwise one link query: 200 with no body when it succeeds, else the text 500 "Internal server error". It never panics |
| TagControllers.GetTags | rustystore/src/tag/controllers.rs:125-136 | the tags are returned as JSON or the text 500 |
| TagControllers.GetTagsOfFile | rustystore/src/tag/controllers.rs:148-163 | a blank id is 422 "Id cannot be empty". Otherwise the file's tags are returned as JSON or a 500. It never panics |
| TagControllers.RemoveTagFromFile | rustystore/src/tag/controllers.rs:175-193 | a blank file id is 422 "Id cannot be negative", then a blank name is 422. Otherwise 200 or 500. It never panics |
| TagControllers.GetFilesTaggedWith | rustystore/src/tag/controllers.rs:205-220 | a blank name is 422. Otherwise the files are returned as JSON or a 500. It never panics |
| FileGrpc.ProtoRoundTrip | rustystore/src/file/grpc.rs:109-117 | the proto copy of a row loses nothing: reading it back gives the row |
| FileGrpc.ProtoFiles | rustystore/src/file/grpc.rs:164-181 | one message per row, in row order, each reading back to its row |
| FileGrpc.Insert | rustystore/src/file/grpc.rs:38-90 | blank name, blank identifier, negative size and blank type are InvalidArgument in that order. The payload reaches the domain unchanged. Only a blank tag can panic. Every database error is Internal "Can't insert file" |
| FileGrpc.DuplicateIsInternal | rustystore/src/file/grpc.rs:85-88 | unlike the HTTP handler, a duplicate key on insert is Internal |
| FileGrpc.Get | rustystore/src/file/grpc.rs:93-129 | a blank id is InvalidArgument with no query. Otherwise the message reads back to the row, or the call is Internal "Can't retrieve file" |
| FileGrpc.Delete | rustystore/src/file/grpc.rs:132-156 | a blank id is InvalidArgument. Otherwise lookup then delete, and success exactly when the delete succeeds |
| FileGrpc.List | rustystore/src/file/grpc.rs:159-188 | the rows are returned as proto files in order, or Internal "Can't retrieve file list" |
| TagGrpc.CreateTag | rustystore/src/tag/grpc.rs:44-70 | a blank name is InvalidArgument. It succeeds exactly when the query does. A duplicate is InvalidArgument "Tag already exists", anything else Internal |
| TagGrpc.RemoveTag | rustystore/src/tag/grpc.rs:73-96 | a blank name is InvalidArgument. Otherwise the query's success, or Internal "Can't remove tag" |
| TagGrpc.LinkFileWithTag | rustystore/src/tag/grpc.rs:99-129 | the file id is checked before the tag name. It succeeds exactly when the link query does |
| TagGrpc.GetTags | rustystore/src/tag/grpc.rs:132-158 | the names of all tags are returned in database order, or Internal "Can't get tags" |
| TagGrpc.GetFileTags | rustystore/src/tag/grpc.rs:161-193 | as written, the only query is files-tagged-with under the file id, and the reply is those files' names |
| TagGrpc.GetFileTagsOfFile | rustystore/src/tag/grpc.rs:161-193 | corrected: the only query is tags-of-file, and the reply is the names of the file's tags |
| TagGrpc.FileTagsMissed | rustystore/src/tag/grpc.rs:172 | for a file tagged "red", get_file_tags as written answers no tags, while the corrected service answers "red" |
| TagGrpc.RemoveFileTag | rustystore/src/tag/grpc.rs:196-226 | the file id is checked before the tag name. Otherwise the query's success, or Internal "Can't remove file tag" |
| TagGrpc.GetFilesTaggedWith | rustystore/src/tag/grpc.rs:229-268 | a blank name is InvalidArgument. Otherwise the files come back as proto files in order, or Internal |
| CatalogFrontEnds.CreateTagAgrees | rustystore/src/tag/grpc.rs:44-70 | the trimmed HTTP create_tag and the gRPC service issue the same queries and give the same verdict: success, 422 with InvalidArgument, or 500 with Internal. The as-written handler agrees except on non-empty blank names, where it panics and the service refuses. The service reaches the database exactly when the domain would not panic |
| CatalogFrontEnds.RemoveTagAgrees | rustystore/src/tag/grpc.rs:73-96 | HTTP and gRPC remove_tag issue the same queries and give the same verdict, and reach the database exactly when the domain would not panic |
| CatalogFrontEnds.LinkFileWithTagAgrees | rustystore/src/tag/grpc.rs:99-129 | HTTP and gRPC link_file_with_tag issue the same queries and give the same verdict, and reach the database exactly when the domain would not panic |
| CatalogFrontEnds.GetTagsAgrees | rustystore/src/tag/grpc.rs:132-158 | HTTP and gRPC get_tags issue the same query and give the same verdict, and the service's names are the names of the rows in the HTTP JSON |
| CatalogFrontEnds.GetTagsOfFileAgrees | rustystore/src/tag/grpc.rs:161-193 | HTTP get_tags_of_file and the corrected get_file_tags agree on queries, verdict and names. The service as written issues a different query |
| CatalogFrontEnds.RemoveTagFromFileAgrees | rustystore/src/tag/grpc.rs:196-226 | HTTP remove_tag_from_file and gRPC remove_file_tag issue the same queries and give the same verdict, and reach the database exactly when the domain would not panic |
| CatalogFrontEnds.GetFilesTaggedWithAgrees | rustystore/src/tag/grpc.rs:229-268 | HTTP and gRPC get_files_tagged_with agree on queries and verdict, and each message reads back to the row in the same position of the HTTP JSON |
| CatalogFrontEnds.RemoveAgrees | rustystore/src/file/grpc.rs:132-156 | HTTP remove and gRPC delete issue the same queries and give the same verdict, and reach the database exactly when the domain would not panic |
| CatalogFrontEnds.GetAgrees | rustystore/src/file/grpc.rs:93-129 | HTTP and gRPC get agree on queries and verdict, and the message reads back to the row in the HTTP JSON |
| CatalogFrontEnds.ListAgrees | rustystore/src/file/grpc.rs:159-188 | HTTP and gRPC list agree on queries and verdict, and return the same rows in the same order |
| CatalogFrontEnds.InsertAgrees | rustystore/src/file/grpc.rs:38-90 | the trimmed HTTP insert and the gRPC insert issue the same queries, panic together and succeed together, and both refuse an invalid payload. A duplicate identifier is 422 over HTTP but Internal over gRPC |

## Left out

- AES-256-GCM itself and `OsRng`: the cipher is the `Aead.Cipher` oracle, and the nonce and the 32 random key bytes are parameters.
- The `uuid` crate: `Backend.GenerateUuid` takes the candidate sequence as a function `draw`.
- Backend.GenerateUuid: the loop in `generate_uuid` has no bound. The method needs a ghost index `last` at which the probe stops (free or panicking) to terminate, so a backend that reports every candidate as taken forever is not modelled.
- The reqwest client, TLS and body streaming: the object store is the `Transport` oracle, and a body read is its `Result` field.
- Reading the multipart temp file (`read_to_end(...).unwrap()`): the contents are a parameter, so an I/O panic there is not modelled.
- tokio's task spawn, the channel of capacity 128 and stream polling: `Stream.Produce` takes the number of sends the receiver accepts.
- actix and tonic wiring, routes, CORS, Swagger, env_logger formatting and colours, and the threads started in both `main` functions.
- Panic recovery: a handler panic is reported as an outcome. What actix or tonic does with it (dropping the connection) is not modelled.
- Configuration is read from the environment at start-up. It is a `Backend.Config` record, and `RUST_ENV` is the string given to `Server.LevelOf`, whose default is "info". The protocol default "http" is just one value of the record.
- The diesel queries, connection pool and schema: the database is the `Catalog.Database` oracle, and a pool failure (`unwrap` on `get`) is not modelled.
- Timestamps: `NaiveDateTime` and its `to_string` are the opaque `Catalog.Timestamp(rendered)`.
- Hex.Decode: it works on characters, not on UTF-8 bytes. Success and the decoded value agree with `hex::decode` on every input. For non-ASCII text the error can differ, because the byte length may be even where the character count is odd, and an error index counts characters rather than bytes.
- actix-web's JSON extractor is stated as its version 4 behaves: its own subtype and suffix test, widened by the configured predicate. The framework's code is not part of this model. Parameters such as `charset` are not parsed.
- StoreComponent.IsValidKey: the browser counts UTF-16 code units. That agrees with the character count whenever every character is a hex digit, which is the only case where the check can pass.
- The rest of the Angular app: the upload dialog, services, the interceptor, pipes and the table's filter and paging.
- The health endpoint, the unused S3 client module, the integration tests and the build scripts.

## Findings

| source | as written | input that shows it | evidently intended | confidence | as-written member | corrected member |
|---|---|---|---|---|---|---|
| rustystorage/src/file/controllers.rs:159-168 | `bytes[..12]` is sliced before the length is known, so the `try_into` error branch meant to catch a short nonce can never run | a stored object of fewer than 12 bytes, e.g. an empty one | a short object is a server-side failure (500) | not executed | StorageHttp.DownloadFile, StorageHttp.ShortObjectPanics | StorageHttp.DownloadFileChecked |
| rustystore/src/file/controllers.rs:38-48 | `insert` rejects only exactly-empty strings, while `file::insert` panics on strings that are blank after trimming; `create_tag` has the same gap (rustystore/src/tag/controllers.rs:39) | a file named " ", or a tag named " " | white-space-only input gets the 422 the handler already has | not executed | FileControllers.Insert, FileControllers.BlankNamePanics, TagControllers.CreateTag, TagControllers.SpaceTagPanics | FileControllers.InsertChecked, TagControllers.CreateTagChecked |
| rustystore/src/tag/grpc.rs:172 | `get_file_tags` calls `get_files_tagged_with` with the file id as a tag name and replies with file names | a file "f1" tagged "red", with no tag named "f1" | the tags of the file (`get_tags_of_file`), as the method name and its log messages say | not executed | TagGrpc.GetFileTags, TagGrpc.FileTagsMissed | TagGrpc.GetFileTagsOfFile |
| store/src/app/store/store.component.ts:185-189 | `isAllSelected` compares the number of selected rows with the number of rows, not which rows are selected | selection {3, 4} left over from before a refresh, rows [1, 2] | "all selected" means every shown row is selected | not executed | StoreComponent.MasterToggle, StoreComponent.StaleSelectionToggle | StoreComponent.MasterToggleByRows |
