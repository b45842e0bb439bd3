/** The object-store client of the gateway: one URL template addressed by
    object id, four HTTP calls, the existence probe and the id allocator.
    The network is an oracle `Transport` from request to answer. */
module Backend {
  import opened Wrappers
  import opened Text

  /** The backend settings read once from the environment at start-up.
      `protocol` defaults to "http" when unset; the others are required. */
  datatype Config = Config(protocol: string, user: string, password: string,
                           host: string, port: u16, bucket: string)

  const ObjectPath := "/api/worker/object/"
  const BucketQuery := "?bucket="

  /** `{protocol}://{user}:{password}@{host}:{port}`: the credentials are
      placed in the userinfo part of the authority (section 3.2.1 of
      RFC 3986) as given, without percent-encoding. */
  function Authority(cfg: Config): string {
    cfg.protocol + "://" + cfg.user + ":" + cfg.password + "@" + cfg.host + ":" + Decimal(cfg.port)
  }

  /** The one URL template shared by all four backend calls. */
  function ObjectUrl(cfg: Config, id: string): string {
    Authority(cfg) + ObjectPath + id + BucketQuery + cfg.bucket
  }

  /** Reads the object id back out of a URL built for `cfg`. */
  function ObjectIdOf(cfg: Config, url: string): Option<string> {
    var prefix := Authority(cfg) + ObjectPath;
    var suffix := BucketQuery + cfg.bucket;
    if |prefix| + |suffix| <= |url| && url[..|prefix|] == prefix && url[|url| - |suffix|..] == suffix
    then Some(url[|prefix|..|url| - |suffix|])
    else None
  }

  /** The id in an object URL can always be recovered: distinct ids give
      distinct object URLs. */
  lemma ObjectIdOfUrl(cfg: Config, id: string)
    ensures ObjectIdOf(cfg, ObjectUrl(cfg, id)) == Some(id)
  {
    var prefix := Authority(cfg) + ObjectPath;
    var suffix := BucketQuery + cfg.bucket;
    var url := ObjectUrl(cfg, id);
    assert url == prefix + id + suffix;
    assert url[..|prefix|] == prefix;
    assert url[|url| - |suffix|..] == suffix;
    assert url[|prefix|..|url| - |suffix|] == id;
  }

  lemma ObjectUrlInjective(cfg: Config, a: string, b: string)
    requires ObjectUrl(cfg, a) == ObjectUrl(cfg, b)
    ensures a == b
  {
    ObjectIdOfUrl(cfg, a);
    ObjectIdOfUrl(cfg, b);
  }

  datatype Method = Head | Get | Put | Delete

  datatype Request = Request(verb: Method, url: string, body: seq<byte>)

  datatype TransportError = TransportError(message: string)

  /** A response: its status and the outcome of reading its body. */
  datatype Response = Response(status: int, body: Result<seq<byte>, TransportError>)

  type Answer = Result<Response, TransportError>

  /** The network: the answer the backend gives to a request. */
  type Transport = Request -> Answer

  /** A handler's result together with the backend requests it sent, in
      order; an empty `sent` means the backend was never contacted. */
  datatype Exchange<+T> = Exchange(outcome: Outcome<T>, sent: seq<Request>)

  /** Two transports that fail on the same requests and deliver the same
      bodies, whatever statuses they report. */
  ghost predicate SameButStatus(a: Transport, b: Transport) {
    forall q :: (a(q).Ok? <==> b(q).Ok?) && (a(q).Ok? ==> a(q).value.body == b(q).value.body)
  }

  /** `reqwest::StatusCode::is_success`. */
  predicate IsSuccess(status: int) {
    200 <= status <= 299
  }

  function HeadRequest(cfg: Config, id: string): Request {
    Request(Head, ObjectUrl(cfg, id), [])
  }

  function GetRequest(cfg: Config, id: string): Request {
    Request(Get, ObjectUrl(cfg, id), [])
  }

  function DeleteRequest(cfg: Config, id: string): Request {
    Request(Delete, ObjectUrl(cfg, id), [])
  }

  function PutRequest(cfg: Config, id: string, data: seq<byte>): Request {
    Request(Put, ObjectUrl(cfg, id), data)
  }

  /** The four calls differ only in their method: each targets the object
      URL of the id it is given, and only the upload carries a body, which
      is its byte argument unchanged. */
  lemma OneUrlTemplate(cfg: Config, id: string, data: seq<byte>)
    ensures forall r <- [HeadRequest(cfg, id), GetRequest(cfg, id), DeleteRequest(cfg, id), PutRequest(cfg, id, data)] ::
              ObjectIdOf(cfg, r.url) == Some(id)
    ensures PutRequest(cfg, id, data).body == data
  {
    ObjectIdOfUrl(cfg, id);
  }

  /** `check_if_exists`: HEAD the object; any answer is `true` exactly when
      its status is 2xx, and a transport failure panics. */
  function CheckIfExists(cfg: Config, id: string, send: Transport): (r: Outcome<bool>)
    ensures r.Panicked? <==> send(HeadRequest(cfg, id)).Err?
    ensures r.Returned? ==> (r.value <==> IsSuccess(send(HeadRequest(cfg, id)).value.status))
  {
    match send(HeadRequest(cfg, id))
    case Ok(response) => Returned(IsSuccess(response.status))
    case Err(e) => Panicked(e.message)
  }

  /** A backend holding exactly the objects `stored`: a HEAD on the URL of
      one of them answers 200, every other request 404. */
  function StoreOf(cfg: Config, stored: set<string>): Transport {
    (q: Request) => if q.verb == Head && ObjectIdOf(cfg, q.url).Some? && ObjectIdOf(cfg, q.url).value in stored
                    then Ok(Response(200, Ok([])))
                    else Ok(Response(404, Ok([])))
  }

  /** Against such a backend the probe reports exactly whether the object is
      stored, so an id the allocator accepts as free names no stored object. */
  lemma CheckIfExistsOnStore(cfg: Config, stored: set<string>, id: string)
    ensures CheckIfExists(cfg, id, StoreOf(cfg, stored)) == Returned(id in stored)
  {
    ObjectIdOfUrl(cfg, id);
  }

  /** The probe of a candidate ends the allocation loop: the id is free, or
      the probe panicked. */
  predicate ProbeStops(cfg: Config, id: string, send: Transport) {
    CheckIfExists(cfg, id, send) != Returned(true)
  }

  /** `generate_uuid`: draw candidates (`draw(i)` is the string of the i-th
      `Uuid::new_v4`) until the probe says one is free. The source loop has
      no bound; `last` is any draw whose probe ends the loop, which exists
      whenever the call returns at all. Every discarded candidate was
      reported as existing; the result is a candidate reported as free, or
      the panic of the probe that failed. */
  method GenerateUuid(cfg: Config, draw: nat -> string, send: Transport, ghost last: nat)
    returns (r: Outcome<string>, attempts: nat)
    requires ProbeStops(cfg, draw(last), send)
    ensures 1 <= attempts <= last + 1
    ensures forall j :: 0 <= j < attempts - 1 ==> CheckIfExists(cfg, draw(j), send) == Returned(true)
    ensures r.Returned? ==> r.value == draw(attempts - 1) && CheckIfExists(cfg, r.value, send) == Returned(false)
    ensures r.Panicked? ==> CheckIfExists(cfg, draw(attempts - 1), send) == Panicked(r.message)
  {
    var i := 0;
    while true
      invariant i <= last
      invariant forall j :: 0 <= j < i ==> CheckIfExists(cfg, draw(j), send) == Returned(true)
      decreases last - i
    {
      var uuid := draw(i);
      var probed := CheckIfExists(cfg, uuid, send);
      if probed.Panicked? {
        return Panicked(probed.message), i + 1;
      }
      if !probed.value {
        return Returned(uuid), i + 1;
      }
      i := i + 1;
    }
  }
}
