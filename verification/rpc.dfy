/** The slice of tonic the services use: status codes, request metadata and
    `MetadataValue::to_str`. */
module Rpc {
  import opened Wrappers
  import opened Text

  datatype Code = InvalidArgument | NotFound | Internal | Unauthenticated

  datatype Status = Status(code: Code, message: string)

  /** Request metadata in arrival order; keys are already lower-case, as
      tonic stores them. */
  type Metadata = seq<(string, seq<byte>)>

  /** `MetadataMap::get`: the first value stored under `key`. */
  function Lookup(md: Metadata, key: string): (r: Option<seq<byte>>)
    ensures r.Some? <==> exists i :: 0 <= i < |md| && md[i].0 == key
    ensures r.Some? ==> exists i :: 0 <= i < |md| && md[i] == (key, r.value)
                                  && forall j :: 0 <= j < i ==> md[j].0 != key
  {
    if |md| == 0 then None
    else if md[0].0 == key then Some(md[0].1)
    else
      var rest := Lookup(md[1..], key);
      assert forall i :: 1 <= i < |md| ==> md[i] == md[1..][i - 1];
      rest
  }

  /** A byte `to_str` accepts: visible ASCII or horizontal tab. */
  predicate IsVisible(b: byte) {
    (32 <= b < 127) || b == 9
  }

  datatype ToStrError = ToStrError

  /** `MetadataValue::to_str`: the value as text when every byte is visible
      ASCII, an error otherwise. */
  function ToStr(v: seq<byte>): (r: Result<string, ToStrError>)
    ensures r.Ok? <==> forall i :: 0 <= i < |v| ==> IsVisible(v[i])
    ensures r.Ok? ==> |r.value| == |v| && forall i :: 0 <= i < |v| ==> r.value[i] as int == v[i]
  {
    if forall i :: 0 <= i < |v| ==> IsVisible(v[i])
    then Ok(seq(|v|, i requires 0 <= i < |v| => v[i] as char))
    else Err(ToStrError)
  }
}
