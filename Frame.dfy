/**
 * The inbound frame-header decode of `read()` (section 5.2 of RFC 6455, as far
 * as the client implements it): octet 0 is skipped, octet 1 is taken whole as
 * the payload length, and only the exact value 126 pulls in a 16-bit
 * big-endian extended length. The value 127 (a 64-bit length) is not
 * implemented, and the mask bit is not stripped.
 */
module Frame {
  import opened Bytes

  /** Octets of header `read()` consumes before the payload. */
  function HeaderSize(s: seq<byte>): nat
    requires |s| >= 2
  {
    if s[1] == 126 then 4 else 2
  }

  /** The payload length `read()` passes to the final `fread`. */
  function PayloadLength(s: seq<byte>): nat
    requires |s| >= 2 && (s[1] == 126 ==> |s| >= 4)
  {
    if s[1] == 126 then 256 * (s[2] as int) + s[3] as int else s[1]
  }

  /** The stream holds the whole header and payload, so no `fread` comes back short. */
  predicate FrameAvailable(s: seq<byte>)
  {
    && |s| >= 2
    && (s[1] == 126 ==> |s| >= 4)
    && |s| >= HeaderSize(s) + PayloadLength(s)
  }

  /** The payload `read()` returns and the number of octets it takes from the stream. */
  datatype Decoded = Decoded(payload: seq<byte>, consumed: nat)

  function Decode(s: seq<byte>): (d: Decoded)
    requires FrameAvailable(s)
    ensures |d.payload| <= d.consumed <= |s|
    ensures d.payload == s[d.consumed - |d.payload|..d.consumed]
    ensures s[1] != 126 ==> |d.payload| == s[1] as int && d.consumed == 2 + s[1] as int
    ensures s[1] == 126 ==> |d.payload| == 256 * (s[2] as int) + s[3] as int <= 65535 && d.consumed == 4 + |d.payload|
  {
    var h := HeaderSize(s);
    Decoded(s[h..h + PayloadLength(s)], h + PayloadLength(s))
  }

  /** Octet 0 (FIN, reserved bits, opcode) has no influence on the result. */
  lemma IgnoresFirstOctet(s: seq<byte>, b: byte)
    requires FrameAvailable(s)
    ensures FrameAvailable(s[0 := b]) && Decode(s[0 := b]) == Decode(s)
  {
  }

  /** Octets after the frame have no influence on the result. */
  lemma IgnoresTrailingOctets(s: seq<byte>, rest: seq<byte>)
    requires FrameAvailable(s)
    ensures FrameAvailable(s + rest) && Decode(s + rest) == Decode(s)
  {
    var d := Decode(s);
    assert (s + rest)[..|s|] == s;
    assert (s + rest)[d.consumed - |d.payload|..d.consumed] == s[d.consumed - |d.payload|..d.consumed];
  }

  /**
   * An unmasked frame as a server sends it under section 5.2 of RFC 6455, for
   * payloads of at most 65535 octets: a literal 7-bit length up to 125,
   * otherwise 126 followed by the length as 16-bit big-endian.
   */
  function ServerFrame(first: byte, payload: seq<byte>): seq<byte>
    requires |payload| <= 65535
  {
    var n := |payload|;
    if n <= 125 then [first, n] + payload
    else [first, 126, n / 256, n % 256] + payload
  }

  /** `read()` recovers the payload of every such frame, whatever follows it in the stream. */
  lemma DecodeServerFrame(first: byte, payload: seq<byte>, rest: seq<byte>)
    requires |payload| <= 65535
    ensures FrameAvailable(ServerFrame(first, payload) + rest)
    ensures Decode(ServerFrame(first, payload) + rest) == Decoded(payload, |ServerFrame(first, payload)|)
  {
    var n := |payload|;
    var f := ServerFrame(first, payload);
    var s := f + rest;
    var h := if n <= 125 then 2 else 4;
    assert f[h..] == payload;
    assert s[1] == 126 <==> n > 125;
    assert s[h..h + n] == payload;
  }

  /** The frame a server sends for a payload over 65535 octets: 127 and a 64-bit big-endian length. */
  function LongServerFrame(first: byte, payload: seq<byte>): seq<byte>
    requires |payload| < 0x1_0000_0000_0000_0000
  {
    var n := |payload|;
    [first, 127,
     n / 0x100_0000_0000_0000 % 256, n / 0x1_0000_0000_0000 % 256,
     n / 0x100_0000_0000 % 256, n / 0x1_0000_0000 % 256,
     n / 0x100_0000 % 256, n / 0x1_0000 % 256, n / 0x100 % 256, n % 256]
    + payload
  }

  /**
   * The unimplemented 64-bit case: for a frame longer than 65535 octets
   * `read()` returns the eight length octets and the first 119 payload
   * octets, never the payload.
   */
  lemma LongFrameMisread(first: byte, payload: seq<byte>)
    requires 65535 < |payload| < 0x1_0000_0000_0000_0000
    ensures FrameAvailable(LongServerFrame(first, payload))
    ensures Decode(LongServerFrame(first, payload)).payload == LongServerFrame(first, payload)[2..129]
    ensures Decode(LongServerFrame(first, payload)).payload != payload
  {
    var s := LongServerFrame(first, payload);
    assert s[1] == 127;
  }
}
