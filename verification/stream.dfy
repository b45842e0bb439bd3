/** The RPC stream bridge: inbound chunk messages are concatenated in
    arrival order; outbound data is cut into fixed-size chunks by
    `slice::chunks` and pushed until a send fails. */
module Stream {
  import opened Wrappers
  import opened Text

  /** The chunk size `get_file` passes to `chunks`. */
  const ChunkSize := 1024

  /** The bytes of a chunk sequence, in order. */
  function Flatten(cs: seq<seq<byte>>): seq<byte> {
    if cs == [] then [] else cs[0] + Flatten(cs[1..])
  }

  lemma {:induction false} FlattenAppend(a: seq<seq<byte>>, b: seq<seq<byte>>)
    ensures Flatten(a + b) == Flatten(a) + Flatten(b)
  {
    if a == [] {
      assert a + b == b;
    } else {
      assert (a + b)[1..] == a[1..] + b;
      FlattenAppend(a[1..], b);
    }
  }

  /** `data.chunks(1024)`: ceil(|data| / 1024) chunks, all full except
      possibly the last, which is never empty; together they are `data`. */
  function Chunks(data: seq<byte>): (cs: seq<seq<byte>>)
    ensures |cs| == (|data| + ChunkSize - 1) / ChunkSize
    ensures forall i :: 0 <= i < |cs| ==> 0 < |cs[i]| <= ChunkSize
    ensures forall i :: 0 <= i < |cs| - 1 ==> |cs[i]| == ChunkSize
    ensures Flatten(cs) == data
    decreases |data|
  {
    if |data| == 0 then []
    else if |data| <= ChunkSize then
      assert Flatten([data]) == data + Flatten([]);
      [data]
    else
      var rest := Chunks(data[ChunkSize..]);
      assert Flatten([data[..ChunkSize]] + rest) == data[..ChunkSize] + Flatten(rest);
      [data[..ChunkSize]] + rest
  }

  datatype StreamError = StreamError(message: string)

  type Item = Result<seq<byte>, StreamError>

  /** Wraps each chunk as a successfully received message. */
  function Received(cs: seq<seq<byte>>): (items: seq<Item>)
    ensures |items| == |cs| && forall i :: 0 <= i < |cs| ==> items[i] == Ok(cs[i])
  {
    if cs == [] then [] else [Ok(cs[0])] + Received(cs[1..])
  }

  /** The messages of a stream with no error. */
  function Messages(items: seq<Item>): (cs: seq<seq<byte>>)
    requires forall i :: 0 <= i < |items| ==> items[i].Ok?
    ensures |cs| == |items| && forall i :: 0 <= i < |items| ==> cs[i] == items[i].value
  {
    if items == [] then [] else [items[0].value] + Messages(items[1..])
  }

  /** The `while let Some(result) = body.next()` loop of `upload_file` and
      `update_file`: append each message to `out`; the first error ends
      the loop with that error. */
  function Reassemble(items: seq<Item>): (r: Result<seq<byte>, StreamError>)
    ensures r.Ok? <==> forall i :: 0 <= i < |items| ==> items[i].Ok?
    ensures r.Ok? ==> r.value == Flatten(Messages(items))
    ensures r.Err? ==> exists k :: 0 <= k < |items| && items[k] == Err(r.error)
                                   && forall j :: 0 <= j < k ==> items[j].Ok?
  {
    if items == [] then Ok([])
    else match items[0]
      case Err(e) => Err(e)
      case Ok(m) =>
        match Reassemble(items[1..])
        case Err(e) =>
          var k :| 0 <= k < |items[1..]| && items[1..][k] == Err(e)
                   && forall j :: 0 <= j < k ==> items[1..][j].Ok?;
          assert items[k + 1] == Err(e);
          Err(e)
        case Ok(d) =>
          assert Messages(items) == [m] + Messages(items[1..]);
          Ok(m + d)
  }

  /** Cutting data into chunks and reassembling the received chunks gives the
      data back. */
  lemma ChunkRoundTrip(data: seq<byte>)
    ensures Reassemble(Received(Chunks(data))) == Ok(data)
  {
    var cs := Chunks(data);
    assert Messages(Received(cs)) == cs;
  }

  /** Chunk boundaries carry no meaning: two error-free streams with the same
      bytes reassemble to the same buffer, e.g. chunks of 400, 400 and 224
      bytes and one chunk of 1024 bytes. */
  lemma BoundariesIrrelevant(xs: seq<seq<byte>>, ys: seq<seq<byte>>)
    requires Flatten(xs) == Flatten(ys)
    ensures Reassemble(Received(xs)) == Reassemble(Received(ys))
  {
    assert Messages(Received(xs)) == xs;
    assert Messages(Received(ys)) == ys;
  }

  function Min(a: nat, b: nat): nat {
    if a <= b then a else b
  }

  /** The producer task of `get_file`: walk the iterator `data.chunks(1024)`,
      sending each chunk; the channel accepts the first `accepted` sends
      (after that the receiver is gone) and the loop stops at the first
      failed send. The delivered chunks are an in-order prefix of the chunk
      sequence, all of it when the receiver stays. */
  method Produce(data: seq<byte>, accepted: nat) returns (delivered: seq<seq<byte>>, attempts: nat)
    ensures delivered == Chunks(data)[..Min(accepted, |Chunks(data)|)]
    ensures attempts == Min(accepted + 1, |Chunks(data)|)
  {
    var stream := Chunks(data);
    var next := 0;
    delivered := [];
    attempts := 0;
    while next < |stream|
      invariant next <= |stream| && next <= accepted
      invariant delivered == stream[..next]
      invariant attempts == next
    {
      var message := stream[next];
      attempts := attempts + 1;
      if next == accepted {
        break;
      }
      delivered := delivered + [message];
      next := next + 1;
    }
  }
}
