/**
 * The opening handshake of section 4.1 of RFC 6455 as the client performs it:
 * `upgradeProtocol` builds the HTTP/1.1 upgrade request, `fgets` takes one
 * response line from the stream and `verifyResponse` checks its status.
 */
module Handshake {
  import opened Wrappers
  import opened Bytes

  /**
   * The two client classes share one core. WithTarget is src/WAMP/WAMPClient.php
   * (caller-chosen target, checked for '/'; trailing spaces after the host and
   * key values; the session id is cached); FixedTarget is src/WAMP/Client.php
   * (always "/websocket/", no trailing spaces, no caching).
   */
  datatype Edition = WithTarget | FixedTarget

  datatype HandshakeError =
    | WrongTarget
    | NoResponse
    | UnexpectedStatus(reported: seq<byte>)

  /** The only accepted start of the response's status line, as octets. */
  function Status101(): (r: seq<byte>)
    ensures |r| == 12
  {
    Latin1("HTTP/1.1 101")
  }

  /** The upgrade request, or WrongTarget when WAMPClient.php is given a target without '/'. */
  function UpgradeRequest(edition: Edition, host: string, target: string, key: string)
    : (r: Result<string, HandshakeError>)
    ensures r.Failure? <==> edition.WithTarget? && '/' !in target
    ensures r.Failure? ==> r.error == WrongTarget
    ensures r.Success? && edition.WithTarget? ==>
      Framed(r.value, "GET " + target + " HTTP/1.1\r\n" + "Host: " + host + " \r\n",
             "Sec-WebSocket-Key: " + key + " \r\nSec-WebSocket-Version: 13\r\nOrigin: *\r\n\r\n")
    ensures r.Success? && edition.FixedTarget? ==>
      Framed(r.value, "GET /websocket/ HTTP/1.1\r\n" + "Host: " + host + "\r\n",
             "Sec-WebSocket-Key: " + key + "\r\nSec-WebSocket-Version: 13\r\nOrigin: *\r\n\r\n")
  {
    if edition.WithTarget? && '/' !in target then Failure(WrongTarget)
    else if edition.WithTarget? then
      Success(Request("GET " + target + " HTTP/1.1\r\n" + "Host: " + host + " \r\n",
                      "Sec-WebSocket-Key: " + key + " \r\nSec-WebSocket-Version: 13\r\nOrigin: *\r\n\r\n"))
    else
      Success(Request("GET /websocket/ HTTP/1.1\r\n" + "Host: " + host + "\r\n",
                      "Sec-WebSocket-Key: " + key + "\r\nSec-WebSocket-Version: 13\r\nOrigin: *\r\n\r\n"))
  }

  /** The two headers that ask for the protocol switch, the same in every request. */
  const UpgradeHeaders: string := "Upgrade: WebSocket\r\nConnection: Upgrade\r\n"

  /**
   * `r` starts with `head`, ends with `tail`, and holds exactly the upgrade
   * headers between them.
   */
  predicate Framed(r: string, head: string, tail: string)
  {
    && |r| == |head| + |UpgradeHeaders| + |tail|
    && head <= r
    && r[|head|..|r| - |tail|] == UpgradeHeaders
    && EndsWith(r, tail)
  }

  /** The head, the upgrade headers and the tail leave no freedom: one request fits them. */
  lemma FramedDetermines(r1: string, r2: string, head: string, tail: string)
    requires Framed(r1, head, tail) && Framed(r2, head, tail)
    ensures r1 == r2
  {
    var m := |head| + |UpgradeHeaders|;
    assert r1 == r1[..|head|] + r1[|head|..m] + r1[m..];
    assert r2 == r2[..|head|] + r2[|head|..m] + r2[m..];
  }

  /**
   * The request around its two fixed middle headers: `head` is the request line
   * and the Host header, `tail` the key, version and Origin headers and the blank line.
   */
  function Request(head: string, tail: string): (r: string)
    ensures Framed(r, head, tail)
    ensures |r| == |head| + 41 + |tail|
  {
    var r := head + UpgradeHeaders + tail;
    assert r[..|head|] == head;
    assert r[|head|..|r| - |tail|] == UpgradeHeaders;
    assert r[|r| - |tail|..] == tail;
    r
  }

  predicate EndsWith(s: string, suffix: string)
  {
    |suffix| <= |s| && s[|s| - |suffix|..] == suffix
  }

  /** Octets up to and including the first line feed (all of them when there is none). */
  function LineLength(s: seq<byte>): (k: nat)
    ensures k <= |s|
    ensures s != [] ==> k > 0
    ensures k < |s| ==> s[k - 1] == 10
    ensures forall i :: 0 <= i < k - 1 ==> s[i] != 10
  {
    if s == [] then 0
    else if s[0] == 10 then 1
    else 1 + LineLength(s[1..])
  }

  /** A line feed-terminated line with no earlier line feed: `fgets` stops exactly after it. */
  predicate IsLine(line: seq<byte>)
  {
    line != [] && line[|line| - 1] == 10 && forall i :: 0 <= i < |line| - 1 ==> line[i] != 10
  }

  lemma {:induction false} LineLengthOfLine(line: seq<byte>, rest: seq<byte>)
    requires IsLine(line)
    ensures LineLength(line + rest) == |line|
    decreases |line|
  {
    var s := line + rest;
    if line[0] != 10 {
      assert s[1..] == line[1..] + rest;
      LineLengthOfLine(line[1..], rest);
    }
  }

  /** `fgets`: the first line of the stream, or FALSE (None) when the stream is empty. */
  function StatusLine(inbound: seq<byte>): (r: Option<seq<byte>>)
    ensures r.None? <==> inbound == []
    ensures r.Some? ==> r.value <= inbound
  {
    if inbound == [] then None else Some(inbound[..LineLength(inbound)])
  }

  /** `fgets` on a stream that starts with a whole line returns that line and leaves the rest. */
  lemma ReadsOneLine(line: seq<byte>, rest: seq<byte>)
    requires IsLine(line)
    ensures StatusLine(line + rest) == Some(line)
    ensures AfterStatusLine(line + rest) == rest
  {
    LineLengthOfLine(line, rest);
    assert (line + rest)[..|line|] == line;
    assert (line + rest)[|line|..] == rest;
  }

  /** What is left on the stream after `fgets`. */
  function AfterStatusLine(inbound: seq<byte>): (r: seq<byte>)
    ensures StatusLine(inbound).Some? ==> StatusLine(inbound).value + r == inbound
    ensures StatusLine(inbound).None? ==> r == []
  {
    inbound[LineLength(inbound)..]
  }

  /**
   * `verifyResponse`: fails on FALSE, and on any line whose first 12 octets
   * are not "HTTP/1.1 101". The error reports those octets in WAMPClient.php;
   * in Client.php `$subres` receives the comparison's result, so it reports "1".
   */
  function VerifyResponse(edition: Edition, line: Option<seq<byte>>): (o: Outcome<HandshakeError>)
    ensures o.Pass? <==> line.Some? && |line.value| >= 12 && line.value[..12] == Status101()
    ensures line.None? ==> o == Fail(NoResponse)
    ensures line.Some? && o.Fail? && edition.WithTarget? ==>
      o.error == UnexpectedStatus(Head(line.value, 12))
    ensures line.Some? && o.Fail? && edition.FixedTarget? ==> o.error == UnexpectedStatus([49])
  {
    if line.None? then Fail(NoResponse)
    else
      var subres := Head(line.value, 12);
      if subres != Status101() then
        Fail(UnexpectedStatus(if edition.WithTarget? then subres else [49]))
      else Pass
  }

  /** A response line shorter than 12 octets is rejected, whichever class reads it. */
  lemma ShortLineRejected(edition: Edition, line: seq<byte>)
    requires |line| < 12
    ensures VerifyResponse(edition, Some(line)).Fail?
  {
  }

  /** Both classes accept and reject exactly the same responses. */
  lemma EditionsAgreeOnAcceptance(line: Option<seq<byte>>)
    ensures VerifyResponse(WithTarget, line).Pass? <==> VerifyResponse(FixedTarget, line).Pass?
  {
  }
}
