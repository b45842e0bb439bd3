/** The stored object layout: the 12-byte nonce followed by the AEAD output
    (ciphertext and tag). The layout is positional; nothing records lengths. */
module Envelope {
  import opened Wrappers
  import opened Text
  import opened Aead

  /** Upload's `encrypted_message`: the nonce, then the AEAD output. */
  function Build(nonce: Nonce, sealed: seq<byte>): (env: seq<byte>)
    ensures |env| == NonceLength + |sealed|
  {
    nonce + sealed
  }

  datatype Parts = Parts(nonce: Nonce, sealed: seq<byte>)

  /** Download's split at byte 12, with the short case made explicit:
      a body shorter than a nonce has no parts. */
  function Split(body: seq<byte>): (r: Option<Parts>)
    ensures r.Some? <==> |body| >= NonceLength
    ensures r.Some? ==> |r.value.sealed| == |body| - NonceLength
  {
    if |body| < NonceLength then None
    else Some(Parts(body[..NonceLength], body[NonceLength..]))
  }

  /** Splitting at offset 12 inverts the upload layout. */
  lemma SplitBuild(nonce: Nonce, sealed: seq<byte>)
    ensures Split(Build(nonce, sealed)) == Some(Parts(nonce, sealed))
  {
    var env := Build(nonce, sealed);
    assert env[..NonceLength] == nonce;
    assert env[NonceLength..] == sealed;
  }

  /** ... and the upload layout inverts the split: no byte is lost or moved. */
  lemma BuildSplit(body: seq<byte>)
    requires |body| >= NonceLength
    ensures Build(Split(body).value.nonce, Split(body).value.sealed) == body
  {
    assert body[..NonceLength] + body[NonceLength..] == body;
  }

  /** Seal: encrypt under a fresh nonce and lay out the envelope. `None`
      when the cipher refuses the plaintext. */
  function Seal(c: Cipher, key: Key, nonce: Nonce, plaintext: seq<byte>): Option<seq<byte>> {
    match c.encrypt(key, nonce, plaintext)
    case None => None
    case Some(sealed) => Some(Build(nonce, sealed))
  }

  /** Open: split, then authenticate and decrypt. */
  function Open(c: Cipher, key: Key, body: seq<byte>): Option<seq<byte>> {
    match Split(body)
    case None => None
    case Some(parts) => c.decrypt(key, parts.nonce, parts.sealed)
  }

  /** For a sound cipher, sealing succeeds for every plaintext within the
      GCM limit, the envelope is 28 bytes longer than the plaintext, and
      opening it with the same key gives the plaintext back. */
  lemma OpenSeal(c: Cipher, key: Key, nonce: Nonce, plaintext: seq<byte>)
    requires Sound(c) && |plaintext| <= MaxPlaintext
    ensures Seal(c, key, nonce, plaintext).Some?
    ensures |Seal(c, key, nonce, plaintext).value| == NonceLength + |plaintext| + TagLength
    ensures Open(c, key, Seal(c, key, nonce, plaintext).value) == Some(plaintext)
  {
    var sealed := c.encrypt(key, nonce, plaintext).value;
    SplitBuild(nonce, sealed);
  }
}
