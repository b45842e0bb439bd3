/** The slice of an actix-web response the handlers produce: a status, the
    headers they set, and a body. */
module Http {
  import opened Text

  const StatusOk := 200
  const StatusBadRequest := 400
  const StatusUnprocessable := 422
  const StatusInternal := 500

  /** A response body: none (`body(())`), text, raw bytes, or a JSON value of
      the handler's payload type. */
  datatype Body<+J> = NoBody | TextBody(text: string) | BytesBody(bytes: seq<byte>) | JsonBody(value: J)

  datatype Reply<+J> = Reply(status: int, headers: seq<(string, string)>, body: Body<J>)

  /** `HttpResponse::Ok().json(value)`. */
  function JsonOk<J>(value: J): (r: Reply<J>)
    ensures r.status == StatusOk && r.body == JsonBody(value)
    ensures r.headers == [("content-type", "application/json")]
  {
    Reply(StatusOk, [("content-type", "application/json")], JsonBody(value))
  }

  function Plain<J>(status: int, body: Body<J>): (r: Reply<J>)
    ensures r.status == status && r.headers == [] && r.body == body
  {
    Reply(status, [], body)
  }

  /** The bare 500, no headers and no body, that a handler gives for a
      server-side failure. */
  function BareError<J>(): (r: Reply<J>)
    ensures r.status == StatusInternal && r.headers == [] && r.body == NoBody
  {
    Plain(StatusInternal, NoBody)
  }
}
