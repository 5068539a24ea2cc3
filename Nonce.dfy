/**
 * The handshake nonce `generateKey`: raw md5 digests of `mt_rand()` are
 * concatenated 16 octets at a time until at least `length` octets exist, the
 * text is cut to `length` octets and base64-encoded.
 */
module Nonce {
  import opened Wrappers
  import opened Bytes
  import Base64

  /** A raw md5 digest: always 16 octets. */
  type Digest = s: seq<byte> | |s| == 16
    witness [0, 0, 0, 0, 0, 0, 0, 0, 0, 0, 0, 0, 0, 0, 0, 0]

  /** The key length `generateKey` is called with. */
  const KeyLength: nat := 16

  /** The first k digests, concatenated; `digest(i)` is the digest drawn in round i. */
  function Chunks(digest: nat -> Digest, k: nat): (r: seq<byte>)
    ensures |r| == 16 * k
    ensures k > 0 ==> r[16 * (k - 1)..] == digest(k - 1)
  {
    if k == 0 then [] else Chunks(digest, k - 1) + digest(k - 1)
  }

  /** The number of loop rounds: the least k with 16 * k >= length. */
  function Rounds(length: nat): (k: nat)
    ensures 16 * k >= length
    ensures k == 0 || 16 * (k - 1) < length
  {
    (length + 15) / 16
  }

  /** The octets handed to base64: the first `length` octets of the concatenated digests. */
  function KeyBytes(length: nat, digest: nat -> Digest): (r: seq<byte>)
    ensures |r| == length
    ensures r <= Chunks(digest, Rounds(length))
  {
    Chunks(digest, Rounds(length))[..length]
  }

  /** The base64 text `generateKey(length)` returns: it decodes back to the key octets. */
  function Key(length: nat, digest: nat -> Digest): (r: string)
    ensures Base64.Decode(r) == Some(KeyBytes(length, digest))
  {
    var raw := KeyBytes(length, digest);
    Base64.DecodeEncode(raw);
    Base64.Encode(raw)
  }

  /** The loop of `generateKey`: append one digest per round while `c++ * 16 < length`. */
  method GenerateKey(length: nat, digest: nat -> Digest) returns (key: string)
    ensures key == Key(length, digest)
  {
    var c := 0;
    var tmp: seq<byte> := [];
    while c * 16 < length
      invariant c <= Rounds(length)
      invariant tmp == Chunks(digest, c)
    {
      tmp := tmp + digest(c);
      c := c + 1;
    }
    assert c == Rounds(length);
    key := Base64.Encode(tmp[..length]);
  }

  /** The key decodes back to exactly `length` octets, and is 4 * ceil(length / 3) characters long. */
  lemma KeyDecodesToLength(length: nat, digest: nat -> Digest)
    ensures Base64.Decode(Key(length, digest)).Some?
    ensures |Base64.Decode(Key(length, digest)).value| == length
    ensures |Key(length, digest)| == 4 * ((length + 2) / 3)
  {
    Base64.EncodeLength(KeyBytes(length, digest));
  }

  /** The 16-octet handshake key is 24 characters of text. */
  lemma HandshakeKeyLength(digest: nat -> Digest)
    ensures |Key(KeyLength, digest)| == 24
  {
    KeyDecodesToLength(KeyLength, digest);
  }

  /** No digest is drawn for an empty key; otherwise the last digest drawn reaches the length. */
  lemma RoundsExact(length: nat)
    ensures length == 0 <==> Rounds(length) == 0
    ensures length == KeyLength ==> Rounds(length) == 1
  {
  }
}
