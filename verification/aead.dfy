/** AES-256-GCM (NIST SP 800-38D) as the gateway uses it, treated as an
    oracle: the model never computes a block cipher. A `Cipher` is any pair
    of encrypt/decrypt functions; `Sound` states the properties of the
    primitive that the gateway depends on. */
module Aead {
  import opened Wrappers
  import opened Text
  import Hex

  /** AES-256 key length in bytes. */
  const KeyLength := 32
  /** 96-bit IV, the length recommended in section 5.2.1.1 of SP 800-38D. */
  const NonceLength := 12
  /** 128-bit authentication tag appended to the ciphertext. */
  const TagLength := 16
  /** Longest plaintext GCM accepts: 2^39 - 256 bits (section 5.2.1.1 of SP 800-38D). */
  const MaxPlaintext := 0x10_0000_0000 - 32

  function Zeros(n: nat): (z: seq<byte>)
    ensures |z| == n
  {
    seq(n, _ => 0)
  }

  type Key = k: seq<byte> | |k| == KeyLength witness Zeros(KeyLength)
  type Nonce = n: seq<byte> | |n| == NonceLength witness Zeros(NonceLength)

  /** `Aes256Gcm::encrypt` / `decrypt` for a given key and nonce; `None` is
      the crate's `Err(aead::Error)`. */
  datatype Cipher = Cipher(
    encrypt: (Key, Nonce, seq<byte>) -> Option<seq<byte>>,
    decrypt: (Key, Nonce, seq<byte>) -> Option<seq<byte>>)

  /** What the gateway relies on: encryption succeeds on every plaintext
      within the GCM length limit, appends a 16-byte tag, and decryption
      under the same key and nonce gives the plaintext back. Where
      encryption starts to fail is left open: the `aes-gcm` crate refuses
      only plaintexts longer than its own bound of 2^36 bytes, which lies
      above `MaxPlaintext`, so it is sound in this sense. */
  ghost predicate Sound(c: Cipher) {
    forall k: Key, n: Nonce, p: seq<byte> ::
      && (|p| <= MaxPlaintext ==> c.encrypt(k, n, p).Some?)
      && (c.encrypt(k, n, p).Some? ==>
            && |c.encrypt(k, n, p).value| == |p| + TagLength
            && c.decrypt(k, n, c.encrypt(k, n, p).value) == Some(p))
  }

  /** The wire key check both HTTP handlers perform: `hex::decode`, then the
      conversion to `[u8; 32]`; either failing gives `None`. */
  function DecodeKey(wire: string): (r: Option<Key>)
    ensures r.Some? <==> |wire| == 2 * KeyLength && Hex.AllHexDigits(wire)
    ensures r.Some? ==> Hex.Decode(wire) == Ok(r.value)
  {
    match Hex.Decode(wire)
    case Err(_) => None
    case Ok(bytes) => if |bytes| == KeyLength then Some(bytes) else None
  }
}
