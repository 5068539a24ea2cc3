/** Octets, as PHP's `ord` and `fread` see them. */
module Bytes {

  type byte = x: int | 0 <= x < 256

  /** True when every character of `s` fits in one octet. */
  predicate IsLatin1(s: string)
  {
    forall i :: 0 <= i < |s| ==> s[i] as int < 256
  }

  /** The octets of a one-octet-per-character text. */
  function Latin1(s: string): (r: seq<byte>)
    requires IsLatin1(s)
    ensures |r| == |s|
    ensures forall i :: 0 <= i < |s| ==> r[i] == s[i] as int
  {
    seq(|s|, i requires 0 <= i < |s| => s[i] as int)
  }

  /** PHP `substr(s, 0, n)` for n >= 0: the first n octets, or all of them if there are fewer. */
  function Head(s: seq<byte>, n: nat): (r: seq<byte>)
    ensures |r| == if |s| < n then |s| else n
    ensures r <= s
  {
    if |s| <= n then s else s[..n]
  }
}
