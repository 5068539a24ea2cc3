/**
 * The client object (class WAMPClient in both src/WAMP/WAMPClient.php and
 * src/WAMP/Client.php): its connection fields, `connect`, `read`,
 * `disconnect`/`close` and the four sends. The socket is abstracted: what the
 * server sends is a byte sequence handed to `connect`, and everything the
 * client writes to (or does with) the stream is appended to `outbox`.
 */
module Client {
  import opened Wrappers
  import opened Bytes
  import opened Protocol
  import opened Messages
  import opened Frame
  import opened Handshake
  import opened Nonce
  import opened Endpoint

  datatype ConnectError =
    | SocketFailed(reason: string)
    | HandshakeFailed(cause: HandshakeError)
    | NoWelcome

  /** One action on the stream: a raw write, a WAMP message sent as a frame, or `fclose`. */
  datatype Wire = Upgrade(text: string) | Message(msg: seq<Json>) | Close

  /** `json_decode` of a frame payload, when the payload is a JSON array. */
  type JsonDecoder = seq<byte> -> Option<seq<Json>>

  /** Element 0 of the decoded payload is the WELCOME code. */
  predicate IsWelcome(m: Option<seq<Json>>)
    ensures IsWelcome(m) <==>
      m.Some? && |m.value| >= 1 && m.value[0].JInt? && FromCode(m.value[0].i) == Some(Welcome)
  {
    m.Some? && |m.value| >= 1 && m.value[0] == JInt(Code(Welcome))
  }

  /** The status line `fgets` returns passes `verifyResponse` (in either class). */
  predicate StatusAccepted(inbound: seq<byte>)
  {
    VerifyResponse(WithTarget, StatusLine(inbound)).Pass?
  }

  /**
   * What the caller of `connect` must guarantee: when the status line is
   * accepted, the stream after it holds a whole frame (no short `fread`).
   */
  predicate ReadableAfterStatus(inbound: seq<byte>)
  {
    StatusAccepted(inbound) ==> FrameAvailable(AfterStatusLine(inbound))
  }

  /** The outcome of one connection attempt, what it writes, and what it leaves unread. */
  datatype Attempt = Attempt(result: Result<Json, ConnectError>, written: seq<Wire>, unread: seq<byte>)

  /**
   * `connect` once the cached-session check is passed: open the socket, send
   * the upgrade request (or fail to build it), check the status line, decode
   * one frame and expect WELCOME.
   */
  function Connection(edition: Edition, socketOpened: bool, errstr: string,
                      request: Result<string, HandshakeError>, inbound: seq<byte>, decode: JsonDecoder)
    : (a: Attempt)
    requires ReadableAfterStatus(inbound)
    ensures a.result.Success? <==>
      && socketOpened
      && request.Success?
      && StatusAccepted(inbound)
      && IsWelcome(decode(Decode(AfterStatusLine(inbound)).payload))
    ensures a.result.Success? ==>
      var p := decode(Decode(AfterStatusLine(inbound)).payload).value;
      a.result.value == if |p| >= 2 then p[1] else JNull
    ensures !socketOpened ==> a == Attempt(Failure(SocketFailed(errstr)), [], [])
    ensures socketOpened && request.Success? ==>
      a.written == [Upgrade(request.value)]
    ensures socketOpened && request.Failure? ==>
      a == Attempt(Failure(HandshakeFailed(request.error)), [], inbound)
    ensures socketOpened && request.Success? ==>
      (a.result == Failure(HandshakeFailed(NoResponse)) <==> inbound == [])
    ensures socketOpened && request.Success? && !StatusAccepted(inbound) ==>
      a.result.Failure? && a.result.error.HandshakeFailed? && a.unread == AfterStatusLine(inbound)
  {
    if !socketOpened then Attempt(Failure(SocketFailed(errstr)), [], [])
    else match request
      case Failure(e) => Attempt(Failure(HandshakeFailed(e)), [], inbound)
      case Success(request) =>
        match VerifyResponse(edition, StatusLine(inbound))
        case Fail(e) => Attempt(Failure(HandshakeFailed(e)), [Upgrade(request)], AfterStatusLine(inbound))
        case Pass =>
          var rest := AfterStatusLine(inbound);
          var d := Decode(rest);
          var msg := decode(d.payload);
          // `$payload[1]`: PHP yields null for a missing element.
          var result := if !IsWelcome(msg) then Failure(NoWelcome)
                        else if |msg.value| >= 2 then Success(msg.value[1])
                        else Success(JNull);
          Attempt(result, [Upgrade(request)], rest[d.consumed..])
  }

  /**
   * A server that answers with an accepted status line followed directly by an
   * unmasked frame carrying a WELCOME array: the attempt returns element 1 of
   * it, or null when the array holds only the WELCOME code.
   */
  lemma WelcomeAfterStatusLine(edition: Edition, errstr: string, request: Result<string, HandshakeError>,
                                statusLine: seq<byte>, first: byte, payload: seq<byte>, decode: JsonDecoder)
    requires request.Success?
    requires IsLine(statusLine) && |statusLine| >= 12 && statusLine[..12] == Status101()
    requires |payload| <= 65535 && IsWelcome(decode(payload))
    ensures ReadableAfterStatus(statusLine + ServerFrame(first, payload))
    ensures Connection(edition, true, errstr, request, statusLine + ServerFrame(first, payload), decode)
         == var m := decode(payload).value;
            Attempt(Success(if |m| >= 2 then m[1] else JNull), [Upgrade(request.value)], [])
  {
    var frame := ServerFrame(first, payload);
    ReadsOneLine(statusLine, frame);
    assert StatusLine(statusLine + frame) == Some(statusLine);
    DecodeServerFrame(first, payload, []);
    assert frame + [] == frame;
    assert frame[|frame|..] == [];
  }

  /**
   * `connect` reads only the status line: any further response header lines
   * are still on the stream, and `read` takes their second octet as the frame
   * length (for a line starting "Upgrade:", the letter 'p', 112).
   */
  lemma HeadersReadAsFrame(statusLine: seq<byte>, headers: seq<byte>, frame: seq<byte>)
    requires IsLine(statusLine) && |headers| >= 2 && headers[1] != 126
    requires FrameAvailable(headers + frame)
    ensures AfterStatusLine(statusLine + (headers + frame)) == headers + frame
    ensures |Decode(AfterStatusLine(statusLine + (headers + frame))).payload| == headers[1] as int
  {
    ReadsOneLine(statusLine, headers + frame);
  }

  class WampClient {
    const edition: Edition
    var serverHost: string
    var serverPort: Option<int>
    /** `$fd` is truthy: the last `stream_socket_client` succeeded. Never cleared. */
    var fd: bool
    /** `$connected` of WAMPClient.php: never assigned after construction. */
    var connected: bool
    /** `$sessionId` of WAMPClient.php (Client.php does not keep one). */
    var sessionId: Json
    /** The octets the server has sent that the client has not read yet. */
    var inbox: seq<byte>
    /** Everything written to the stream, in order. */
    var outbox: seq<Wire>

    constructor (edition: Edition, url: UrlParts)
      ensures this.edition == edition
      ensures serverHost == Resolve(url).host && serverPort == Resolve(url).port
      ensures !fd && !connected && sessionId == JNull
      ensures inbox == [] && outbox == []
    {
      this.edition := edition;
      serverHost := "";
      serverPort := Some(FieldDefaultPort);
      fd := false;
      connected := false;
      sessionId := JNull;
      inbox := [];
      outbox := [];
      new;
      ParseUrl(url);
    }

    /** `parseUrl`: set the host and port from the endpoint's components. */
    method ParseUrl(url: UrlParts)
      modifies this`serverHost, this`serverPort
      ensures serverHost == Resolve(url).host && serverPort == Resolve(url).port
    {
      serverHost := HostText(url);
      serverPort := url.port;
      if IsHttps(url) {
        serverHost := "ssl://" + serverHost;
        if serverPort.None? || serverPort == Some(0) {
          serverPort := Some(HttpsDefaultPort);
        }
      }
    }

    /**
     * `connect`: `socketOpened` and `errstr` are what `stream_socket_client` reports,
     * `digest` the md5 digests drawn for the key, `inbound` the octets the
     * server sends, `decode` stands for `json_decode`. The target, "/websocket/"
     * unless given, is only read by WAMPClient.php; Client.php always requests
     * "/websocket/".
     */
    method Connect(socketOpened: bool, errstr: string, digest: nat -> Digest,
                   inbound: seq<byte>, decode: JsonDecoder, target: string := "/websocket/")
      returns (r: Result<Json, ConnectError>)
      requires ReadableAfterStatus(inbound)
      modifies this`fd, this`sessionId, this`inbox, this`outbox
      ensures edition.WithTarget? && old(connected) ==>
        r == Success(old(sessionId)) && unchanged(this)
      ensures !(edition.WithTarget? && old(connected)) ==>
        var request := UpgradeRequest(edition, serverHost, target, Key(KeyLength, digest));
        var a := Connection(edition, socketOpened, errstr, request, inbound, decode);
        && r == a.result
        && fd == socketOpened
        && inbox == a.unread
        && outbox == old(outbox) + a.written
        && sessionId == (if edition.WithTarget? && r.Success? then r.value else old(sessionId))
    {
      if edition.WithTarget? && connected {
        return Success(sessionId);
      }
      fd := socketOpened;
      if !fd {
        inbox := [];
        return Failure(SocketFailed(errstr));
      }
      inbox := inbound;
      var response := UpgradeProtocol(target, digest);
      if response.Failure? {
        return Failure(HandshakeFailed(response.error));
      }
      var verdict := VerifyResponse(edition, response.value);
      if verdict.Fail? {
        return Failure(HandshakeFailed(verdict.error));
      }
      var payload := Read();
      var msg := decode(payload);
      if !IsWelcome(msg) {
        return Failure(NoWelcome);
      }
      var session := if |msg.value| >= 2 then msg.value[1] else JNull;
      if edition.WithTarget? {
        sessionId := session;
      }
      return Success(session);
    }

    /** `upgradeProtocol`: write the upgrade request and return the line `fgets` reads. */
    method UpgradeProtocol(target: string, digest: nat -> Digest)
      returns (response: Result<Option<seq<byte>>, HandshakeError>)
      modifies this`inbox, this`outbox
      ensures var request := UpgradeRequest(edition, serverHost, target, Key(KeyLength, digest));
        if request.Failure? then
          response == Failure(request.error) && inbox == old(inbox) && outbox == old(outbox)
        else
          && response == Success(StatusLine(old(inbox)))
          && inbox == AfterStatusLine(old(inbox))
          && outbox == old(outbox) + [Upgrade(request.value)]
    {
      var key := GenerateKey(KeyLength, digest);
      var request := UpgradeRequest(edition, serverHost, target, key);
      if request.Failure? {
        return Failure(request.error);
      }
      outbox := outbox + [Upgrade(request.value)];
      var line := ReadLine();
      return Success(line);
    }

    /** `fgets`: one line, or FALSE when nothing is left. */
    method ReadLine() returns (line: Option<seq<byte>>)
      modifies this`inbox
      ensures line == StatusLine(old(inbox)) && inbox == AfterStatusLine(old(inbox))
    {
      if inbox == [] {
        return None;
      }
      var k := LineLength(inbox);
      line := Some(inbox[..k]);
      inbox := inbox[k..];
    }

    /** `fread`: the next n octets. */
    method ReadOctets(n: nat) returns (chunk: seq<byte>)
      requires n <= |inbox|
      modifies this`inbox
      ensures chunk == old(inbox)[..n] && inbox == old(inbox)[n..]
    {
      chunk := inbox[..n];
      inbox := inbox[n..];
    }

    /** `read`: skip one octet, read the length octet, the 16-bit extension on 126, then the payload. */
    method Read() returns (payload: seq<byte>)
      requires FrameAvailable(inbox)
      modifies this`inbox
      ensures payload == Decode(old(inbox)).payload
      ensures inbox == old(inbox)[Decode(old(inbox)).consumed..]
    {
      var _ := ReadOctets(1);
      var lengthOctet := ReadOctets(1);
      var payloadLength: nat := lengthOctet[0];
      // 127 would announce a 64-bit length; it is not implemented and is used as the length.
      if payloadLength == 126 {
        var extended := ReadOctets(2);
        payloadLength := 256 * (extended[0] as int) + extended[1] as int;
      }
      payload := ReadOctets(payloadLength);
    }

    /**
     * `disconnect` (WAMPClient.php) and `close` (Client.php): TRUE iff `$fd` is
     * set; `$fd` stays, but nothing more can be read from the closed stream.
     */
    method Disconnect() returns (closed: bool)
      modifies this`outbox, this`inbox
      ensures closed == fd
      ensures outbox == old(outbox) + (if fd then [Close] else [])
      ensures inbox == if fd then [] else old(inbox)
      ensures fd ==> !FrameAvailable(inbox)
    {
      if fd {
        outbox := outbox + [Close];
        inbox := [];
        return true;
      }
      return false;
    }

    /** `send`: one message on the stream, whatever the connection state. */
    method Send(msg: seq<Json>)
      modifies this`outbox
      ensures outbox == old(outbox) + [Message(msg)]
    {
      outbox := outbox + [Message(msg)];
    }

    method Prefix(prefix: Json, uri: Json)
      modifies this`outbox
      ensures outbox == old(outbox) + [Message(Build(PrefixMsg(prefix, uri)))]
    {
      Send([JInt(Code(Protocol.Prefix)), prefix, uri]);
    }

    /** `call(procUri, ...args)`: `callId` is what `uniqid` returns. */
    method Call(procUri: Json, callId: string, args: seq<Json>)
      modifies this`outbox
      ensures outbox == old(outbox) + [Message(Build(CallMsg(callId, procUri, args)))]
    {
      Send([JInt(Code(Protocol.Call)), JString(callId), procUri] + args);
    }

    method Publish(topicUri: Json, payload: Json, exclude: Json := JArray([]), eligible: Json := JArray([]))
      modifies this`outbox
      ensures outbox == old(outbox) + [Message(Build(PublishMsg(topicUri, payload, exclude, eligible)))]
    {
      Send([JInt(Code(Protocol.Publish)), topicUri, payload, exclude, eligible]);
    }

    method Event(topicUri: Json, payload: Json)
      modifies this`outbox
      ensures outbox == old(outbox) + [Message(Build(EventMsg(topicUri, payload)))]
    {
      Send([JInt(Code(Protocol.Event)), topicUri, payload]);
    }
  }

  /**
   * `$connected` is never set, so a second `connect` on the same object runs
   * the whole handshake again rather than returning the cached session id.
   */
  method ConnectTwice(edition: Edition, url: UrlParts, target: string, digest: nat -> Digest,
                      inbound1: seq<byte>, inbound2: seq<byte>, decode: JsonDecoder)
    returns (first: Result<Json, ConnectError>, second: Result<Json, ConnectError>)
    requires ReadableAfterStatus(inbound1) && ReadableAfterStatus(inbound2)
    ensures var request := UpgradeRequest(edition, Resolve(url).host, target, Key(KeyLength, digest));
      && first == Connection(edition, true, "", request, inbound1, decode).result
      && second == Connection(edition, true, "", request, inbound2, decode).result
  {
    var client := new WampClient(edition, url);
    first := client.Connect(true, "", digest, inbound1, decode, target);
    second := client.Connect(true, "", digest, inbound2, decode, target);
  }

  /**
   * `$fd` is never cleared, so a second `disconnect` on a connected object
   * reports TRUE again and closes the stream a second time.
   */
  method DisconnectTwice(client: WampClient) returns (first: bool, second: bool)
    requires client.fd
    modifies client`outbox, client`inbox
    ensures first && second
    ensures client.outbox == old(client.outbox) + [Close, Close]
    ensures client.inbox == []
  {
    first := client.Disconnect();
    second := client.Disconnect();
  }
}
