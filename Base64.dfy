/**
 * The base64 encoding of section 4 of RFC 4648 (alphabet A-Z a-z 0-9 + /,
 * '=' padding), as PHP's `base64_encode` produces it for the handshake key.
 */
module Base64 {
  import opened Wrappers
  import opened Bytes

  type sextet = x: int | 0 <= x < 64

  /** The character that stands for a 6-bit value; `Value` reads it back. */
  function Symbol(v: sextet): (c: char)
    ensures Value(c) == Some(v)
    ensures c != '='
  {
    if v < 26 then ('A' as int + v) as char
    else if v < 52 then ('a' as int + (v - 26)) as char
    else if v < 62 then ('0' as int + (v - 52)) as char
    else if v == 62 then '+'
    else '/'
  }

  /** The 6-bit value a character stands for, if it is in the alphabet. */
  function Value(c: char): Option<sextet>
  {
    if 'A' <= c <= 'Z' then Some(c as int - 'A' as int)
    else if 'a' <= c <= 'z' then Some(c as int - 'a' as int + 26)
    else if '0' <= c <= '9' then Some(c as int - '0' as int + 52)
    else if c == '+' then Some(62)
    else if c == '/' then Some(63)
    else None
  }

  /** The 4 characters for a final single octet: two symbols and two '='. */
  function One(x: byte): string
  {
    [Symbol(x / 4), Symbol((x % 4) * 16), '=', '=']
  }

  /** The 4 characters for a final pair of octets: three symbols and one '='. */
  function Two(x: byte, y: byte): string
  {
    [Symbol(x / 4), Symbol((x % 4) * 16 + y / 16), Symbol((y % 16) * 4), '=']
  }

  /** The 4 characters for three octets, 6 bits each, most significant first. */
  function Three(x: byte, y: byte, z: byte): string
  {
    [Symbol(x / 4), Symbol((x % 4) * 16 + y / 16), Symbol((y % 16) * 4 + z / 64), Symbol(z % 64)]
  }

  /**
   * Encodes 3 octets per 4 characters; a final group of 1 or 2 octets is padded
   * with '='. Every character is in the alphabet or is padding.
   */
  function Encode(s: seq<byte>): (r: string)
    ensures forall i :: 0 <= i < |r| ==> r[i] == '=' || Value(r[i]).Some?
    decreases |s|
  {
    if |s| == 0 then ""
    else if |s| == 1 then One(s[0])
    else if |s| == 2 then Two(s[0], s[1])
    else Three(s[0], s[1], s[2]) + Encode(s[3..])
  }

  /** Every started group of 3 octets becomes 4 characters. */
  lemma {:induction false} EncodeLength(s: seq<byte>)
    ensures |Encode(s)| == 4 * ((|s| + 2) / 3)
    decreases |s|
  {
    if |s| >= 3 {
      EncodeLength(s[3..]);
    }
  }

  /** Octets from one 4-character group, `pad` of whose trailing characters are '='. */
  function Group(a: sextet, b: sextet, c: sextet, d: sextet, pad: nat): seq<byte>
    requires pad <= 2
  {
    if pad == 2 then [a * 4 + b / 16]
    else if pad == 1 then [a * 4 + b / 16, (b % 16) * 16 + c / 4]
    else [a * 4 + b / 16, (b % 16) * 16 + c / 4, (c % 4) * 64 + d]
  }

  /** Decodes one 4-character group; None when a character is outside the alphabet. */
  function DecodeGroup(q: string): Option<seq<byte>>
    requires |q| == 4
  {
    var pad := if q[3] != '=' then 0 else if q[2] != '=' then 1 else 2;
    var a, b := Value(q[0]), Value(q[1]);
    var c := if pad == 2 then Some(0) else Value(q[2]);
    var d := if pad >= 1 then Some(0) else Value(q[3]);
    if a.None? || b.None? || c.None? || d.None? then None
    else Some(Group(a.value, b.value, c.value, d.value, pad))
  }

  /** Decodes a padded base64 text; None when it is not one. Padding may only end the text. */
  function Decode(t: string): Option<seq<byte>>
    decreases |t|
  {
    if |t| == 0 then Some([])
    else if |t| < 4 then None
    else
      var g := DecodeGroup(t[..4]);
      var rest := Decode(t[4..]);
      if g.None? || rest.None? || (t[3] == '=' && |t| > 4) then None
      else Some(g.value + rest.value)
  }

  lemma RegroupOne(x: byte)
    ensures Group(x / 4, (x % 4) * 16, 0, 0, 2) == [x]
  {
  }

  lemma DecodeGroupOne(x: byte)
    ensures DecodeGroup(One(x)) == Some([x])
  {
    var a, b := x / 4, (x % 4) * 16;
    assert One(x) == [Symbol(a), Symbol(b), '=', '='];
    RegroupOne(x);
  }

  lemma RegroupTwo(x: byte, y: byte)
    ensures Group(x / 4, (x % 4) * 16 + y / 16, (y % 16) * 4, 0, 1) == [x, y]
  {
  }

  lemma DecodeGroupTwo(x: byte, y: byte)
    ensures DecodeGroup(Two(x, y)) == Some([x, y])
  {
    var a, b, c := x / 4, (x % 4) * 16 + y / 16, (y % 16) * 4;
    assert Two(x, y) == [Symbol(a), Symbol(b), Symbol(c), '='];
    RegroupTwo(x, y);
  }

  /** Regrouping three octets' 24 bits as four sextets and back is the identity. */
  lemma RegroupThree(x: byte, y: byte, z: byte)
    ensures Group(x / 4, (x % 4) * 16 + y / 16, (y % 16) * 4 + z / 64, z % 64, 0) == [x, y, z]
  {
  }

  lemma DecodeGroupThree(x: byte, y: byte, z: byte)
    ensures DecodeGroup(Three(x, y, z)) == Some([x, y, z])
    ensures Three(x, y, z)[3] != '='
  {
    var a, b, c, d := x / 4, (x % 4) * 16 + y / 16, (y % 16) * 4 + z / 64, z % 64;
    var q := Three(x, y, z);
    assert q == [Symbol(a), Symbol(b), Symbol(c), Symbol(d)];
    RegroupThree(x, y, z);
  }

  /** A single final group decodes as the group. */
  lemma DecodeSingleGroup(q: string)
    requires |q| == 4 && DecodeGroup(q).Some?
    ensures Decode(q) == DecodeGroup(q)
  {
    assert q[..4] == q && q[4..] == "";
    assert Decode(q[4..]) == Some([]);
    assert DecodeGroup(q).value + [] == DecodeGroup(q).value;
  }

  /** A full group followed by more text decodes as the group followed by the rest. */
  lemma DecodeFullGroup(q: string, rest: string, g: seq<byte>, r: seq<byte>)
    requires |q| == 4 && q[3] != '=' && DecodeGroup(q) == Some(g) && Decode(rest) == Some(r)
    ensures Decode(q + rest) == Some(g + r)
  {
    var t := q + rest;
    assert t[..4] == q && t[4..] == rest;
  }

  /** Decoding undoes encoding: the octets handed to base64 are recovered exactly. */
  lemma {:induction false} DecodeEncode(s: seq<byte>)
    ensures Decode(Encode(s)) == Some(s)
    decreases |s|
  {
    if |s| == 0 {
    } else if |s| == 1 {
      DecodeEncodeOne(s);
    } else if |s| == 2 {
      DecodeEncodeTwo(s);
    } else {
      DecodeEncode(s[3..]);
      EncodeStep(s);
      DecodeEncodeStep(s[0], s[1], s[2], Encode(s[3..]), s[3..]);
      SplitThree(s);
    }
  }

  lemma DecodeEncodeOne(s: seq<byte>)
    requires |s| == 1
    ensures Decode(Encode(s)) == Some(s)
  {
    DecodeGroupOne(s[0]);
    DecodeSingleGroup(One(s[0]));
    assert s == [s[0]];
  }

  lemma DecodeEncodeTwo(s: seq<byte>)
    requires |s| == 2
    ensures Decode(Encode(s)) == Some(s)
  {
    DecodeGroupTwo(s[0], s[1]);
    DecodeSingleGroup(Two(s[0], s[1]));
    assert s == [s[0], s[1]];
  }

  lemma SplitThree(s: seq<byte>)
    requires |s| >= 3
    ensures [s[0], s[1], s[2]] + s[3..] == s
  {
  }

  lemma EncodeStep(s: seq<byte>)
    requires |s| >= 3
    ensures Encode(s) == Three(s[0], s[1], s[2]) + Encode(s[3..])
  {
  }

  lemma DecodeEncodeStep(x: byte, y: byte, z: byte, rest: string, r: seq<byte>)
    requires Decode(rest) == Some(r)
    ensures Decode(Three(x, y, z) + rest) == Some([x, y, z] + r)
  {
    DecodeGroupThree(x, y, z);
    DecodeFullGroup(Three(x, y, z), rest, [x, y, z], r);
  }
}
