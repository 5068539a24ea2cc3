# WAMP v1 client: handshake, frame decode and message model

This project models the core of a PHP client for WAMP version 1 (the
WebSocket Application Messaging Protocol). The client opens a socket and
sends the HTTP/1.1 upgrade request of section 4.1 of RFC 6455. It checks the
status line of the response and reads the first WebSocket frame, which must
carry a WELCOME message. It then sends PREFIX, CALL, PUBLISH and EVENT
messages: JSON arrays tagged with a message-type code.

The repository holds the client class twice. `src/WAMP/WAMPClient.php` takes
a caller-chosen target, checks it for `/`, pads the Host and key header
values with a trailing space, and caches the session id. `src/WAMP/Client.php`
always requests `/websocket/`, has no target check and no padding, keeps no
session, and calls its disconnect `close`. The model keeps one core,
`Client.WampClient`, and selects between the two with `Handshake.Edition`:
`WithTarget` for WAMPClient.php and `FixedTarget` for Client.php.

Modules, leaf first:

- `Protocol`: the nine message-type codes as an enum with an injective integer tag.
- `Messages`: a JSON value datatype and the four outbound messages. `Build` gives the array the client sends and `Parse` is its inverse.
- `Base64`: base64 as in section 4 of RFC 4648, with a decode round trip.
- `Nonce`: the `generateKey` loop. Raw md5 digests are appended 16 octets at a time, the result is cut to the key length, then base64-encoded.
- `Frame`: the inbound frame-header decode of `read`, next to a reference server-side encoder of section 5.2 of RFC 6455.
- `Handshake`: the upgrade request, the `fgets` line split and `verifyResponse`.
- `Endpoint`: the `parseUrl` post-processing of the parsed endpoint.
- `Client`: the client class with fields `fd`, `connected`, `sessionId`, `inbox` and `outbox`. `inbox` holds the octets the server sent that are not yet read. `outbox` records, in order, every request, message and close on the stream. A pure function `Connection` specifies one connection attempt.

Behaviour the model keeps as the code has it:

- `read` skips octet 0. It takes octet 1 whole as the length, so the mask bit is not stripped.
- Only a length octet of exactly 126 reads a 16-bit big-endian extension. A value of 127 is used as a literal length, and the eight-octet extension is read as payload (`Frame.LongFrameMisread`).
- `$connected` is never assigned. It is outside every `modifies` clause, so the cached-session branch of `connect` never runs, and each call reconnects (`Client.ConnectTwice`).
- Sends do not check the connection state. They hand the message to `fwrite` on `$fd`, even when no live stream is behind it.
- `disconnect` and `close` leave `$fd` set.
- `connect` reads only the status line of the response. Any further response header lines stay on the stream, and `read` decodes them as the frame header (`Client.HeadersReadAsFrame`). With a usual `Upgrade:` header, the frame length becomes the letter `p`, 112.
- Where this departs from the WebSocket protocol or the client's own comments, the model follows the code: no 64-bit lengths, no unmasking, no `Sec-WebSocket-Accept` check.

## Model

| member | source | states |
|---|---|---|
| Protocol.Code | src/WAMP/Protocol.php:12-20 | every code lies in 0..8, and 0 belongs to WELCOME alone |
| Protocol.FromCode | src/WAMP/Protocol.php:12-20 | an integer names a message type exactly when it lies in 0..8 |
| Protocol.FromCodeOfCode | src/WAMP/Protocol.php:12-20 | decoding a type's code gives the type back |
| Protocol.CodeOfFromCode | src/WAMP/Protocol.php:12-20 | every tag that decodes is the code of the type it decodes to |
| Protocol.CodeInjective | src/WAMP/Protocol.php:12-20 | the nine codes are pairwise distinct |
| Messages.Build | src/WAMP/WAMPClient.php:177-229 | element 0 is the message's code; PREFIX and EVENT have 3 elements, PUBLISH 5, CALL 3 plus its argument count |
| Messages.Parse | src/WAMP/WAMPClient.php:177-229 | a message read back from an array has that array's element 0 as its code |
| Messages.ParseBuild | src/WAMP/WAMPClient.php:191-199 | every built message reads back as itself: call id, procedure and arguments in order, publish's exclude and eligible |
| Messages.BuildParse | src/WAMP/WAMPClient.php:177-229 | an array that reads as a message is exactly the array built from that message |
| Messages.BuildInjective | src/WAMP/WAMPClient.php:177-229 | two different messages never produce the same array |
| Messages.EmittedKinds | src/WAMP/Protocol.php:13-20 | built messages carry PREFIX=1, CALL=2, PUBLISH=7 or EVENT=8, and never codes 3 to 6 |
| Base64.Symbol | src/WAMP/WAMPClient.php:241 | each 6-bit value has a character of the alphabet, never `=`, that reads back as that value |
| Base64.Encode | src/WAMP/WAMPClient.php:241 | every character of the encoded text is in the base64 alphabet or is `=` padding |
| Base64.EncodeLength | src/WAMP/WAMPClient.php:241 | n octets encode to 4·⌈n/3⌉ characters |
| Base64.DecodeEncode | src/WAMP/WAMPClient.php:241 | decoding the encoded text recovers exactly the octets encoded |
| Nonce.Chunks | src/WAMP/WAMPClient.php:237-239 | k rounds hold 16·k octets, the last 16 being round k-1's digest |
| Nonce.Rounds | src/WAMP/WAMPClient.php:237 | the loop runs the least k with 16·k ≥ length times |
| Nonce.KeyBytes | src/WAMP/WAMPClient.php:241 | the octets handed to base64 are exactly `length` long and a prefix of the digests drawn |
| Nonce.Key | src/WAMP/WAMPClient.php:232-242 | the key `generateKey` returns is base64 text that decodes back to exactly the key octets |
| Nonce.GenerateKey | src/WAMP/WAMPClient.php:232-242 | the loop returns the base64 text of the first `length` octets of the concatenated digests |
| Nonce.KeyDecodesToLength | src/WAMP/Client.php:224-234 | the key decodes to exactly `length` octets and is 4·⌈length/3⌉ characters long |
| Nonce.HandshakeKeyLength | src/WAMP/Client.php:224-234 | the 16-octet handshake key is 24 characters |
| Nonce.RoundsExact | src/WAMP/Client.php:229-231 | no digest is drawn when length is 0, and one for the default 16 |
| Frame.Decode | src/WAMP/WAMPClient.php:112-131 | unless octet 1 is 126, the payload is the next octet-1 octets after octet 1 (127 and mask-bit values included); on 126 the length is 256·b2+b3 ≤ 65535 and the payload starts at offset 4 |
| Frame.IgnoresFirstOctet | src/WAMP/WAMPClient.php:114-115 | changing octet 0 changes nothing in the result |
| Frame.IgnoresTrailingOctets | src/WAMP/WAMPClient.php:130 | octets after the frame change nothing in the result |
| Frame.DecodeServerFrame | src/WAMP/WAMPClient.php:118-130 | an unmasked server frame of up to 65535 payload octets decodes to its payload and consumes the whole frame |
| Frame.LongFrameMisread | src/WAMP/WAMPClient.php:125-127 | for a frame over 65535 octets the decoder returns the 8 length octets and 119 payload octets, never the payload |
| Handshake.UpgradeRequest | src/WAMP/WAMPClient.php:75-85 | fails with WrongTarget exactly when WAMPClient.php gets a target without `/`; otherwise the request is exactly the request line `GET <target> HTTP/1.1` and the Host line, then `Upgrade: WebSocket` and `Connection: Upgrade`, then the key, `Sec-WebSocket-Version: 13` and `Origin: *` lines and a blank line; trailing spaces after host and key only in WAMPClient.php; Client.php requests `/websocket/` |
| Handshake.FramedDetermines | src/WAMP/Client.php:68-74 | the request line, the Host line, the two upgrade headers and the closing lines leave room for exactly one request text |
| Handshake.LineLength | src/WAMP/WAMPClient.php:89 | the line `fgets` takes ends at the first line feed, or at the end of the stream |
| Handshake.LineLengthOfLine | src/WAMP/WAMPClient.php:89 | on a stream that starts with a whole line, `fgets` stops right after it |
| Handshake.ReadsOneLine | src/WAMP/WAMPClient.php:89 | `fgets` returns that line and leaves exactly the rest on the stream |
| Handshake.StatusLine | src/WAMP/WAMPClient.php:89 | `fgets` returns FALSE exactly on an empty stream, otherwise a prefix of it |
| Handshake.AfterStatusLine | src/WAMP/WAMPClient.php:89 | the line read and the rest of the stream together make the whole stream |
| Handshake.VerifyResponse | src/WAMP/WAMPClient.php:93-103 | passes exactly when a line was read and its first 12 octets are `HTTP/1.1 101`; FALSE gives NoResponse; in WAMPClient.php the error reports the first 12 octets, and in Client.php, where `$subres` receives the comparison's result, it reports "1" |
| Handshake.ShortLineRejected | src/WAMP/WAMPClient.php:98-100 | a line shorter than 12 octets is always rejected |
| Handshake.EditionsAgreeOnAcceptance | src/WAMP/Client.php:84-90 | Client.php accepts and rejects exactly the lines WAMPClient.php does |
| Endpoint.Resolve | src/WAMP/WAMPClient.php:251-266 | only scheme `https` prefixes `ssl://` and turns an absent or 0 port into 443; otherwise the host is kept and the port is the explicit one or null; the field default 80 never survives unless given |
| Endpoint.HttpsAlwaysHasPort | src/WAMP/WAMPClient.php:258-263 | an https endpoint always gets a nonzero port and the `ssl://` prefix |
| Endpoint.ResolveExamples | src/WAMP/WAMPClient.php:255-263 | https with port 9000 keeps it, https without a port gets 443, ws with 8080 keeps it, http without a port gets null |
| Client.IsWelcome | src/WAMP/WAMPClient.php:62 | the payload counts as WELCOME exactly when it is an array whose element 0 is an integer that decodes to the WELCOME type |
| Client.Connection | src/WAMP/WAMPClient.php:50-67 | succeeds exactly when the socket opened, the request was built, the status line was accepted and the decoded payload's element 0 is WELCOME, returning element 1, or null when the payload has fewer than two elements; a failed socket writes nothing; FALSE from `fgets` means an empty stream |
| Client.WelcomeAfterStatusLine | src/WAMP/WAMPClient.php:56-67 | a server that sends an accepted status line then a WELCOME frame yields that frame's element 1, and the stream is fully read |
| Client.HeadersReadAsFrame | src/WAMP/WAMPClient.php:56-60 | header lines after the status line are decoded as the frame, their second octet being taken as the length |
| Client.ConnectTwice | src/WAMP/WAMPClient.php:46-48 | a second `connect` on one object runs the full handshake again instead of returning the cached session |
| Client.WampClient.constructor | src/WAMP/WAMPClient.php:32-36 | host and port come from `parseUrl`; no stream, not connected, no session, nothing written |
| Client.WampClient.ParseUrl | src/WAMP/WAMPClient.php:251-266 | the host and port fields become those of `Endpoint.Resolve` |
| Client.WampClient.Connect | src/WAMP/WAMPClient.php:44-68 | the target defaults to `/websocket/`; result, `fd`, unread octets and writes are those of `Client.Connection`; WAMPClient.php stores the session id and Client.php never does; `connected` is never changed |
| Client.WampClient.UpgradeProtocol | src/WAMP/WAMPClient.php:71-90 | on a bad target nothing is written; otherwise the request is written and the line `fgets` reads is returned |
| Client.WampClient.ReadLine | src/WAMP/WAMPClient.php:89 | takes `Handshake.StatusLine` off the stream |
| Client.WampClient.ReadOctets | src/WAMP/WAMPClient.php:115-130 | `fread` of n octets returns the next n octets of the stream and removes exactly them |
| Client.WampClient.Read | src/WAMP/Client.php:101-122 | returns `Frame.Decode`'s payload and removes exactly the consumed octets from the stream |
| Client.WampClient.Disconnect | src/WAMP/Client.php:130-139 | returns TRUE exactly when `$fd` is set, and closes the stream only then; `$fd` is not cleared; once closed, nothing is left to read, so `Read` cannot be called |
| Client.DisconnectTwice | src/WAMP/WAMPClient.php:139-146 | because `$fd` is never cleared, a second `disconnect` on a connected object again returns TRUE and closes the stream again |
| Client.WampClient.Send | src/WAMP/WAMPClient.php:157-168 | appends one message to the stream whatever the connection state |
| Client.WampClient.Prefix | src/WAMP/WAMPClient.php:177-182 | sends exactly `[1, prefix, uri]` and changes nothing else |
| Client.WampClient.Call | src/WAMP/WAMPClient.php:191-200 | sends exactly `[2, callId, procUri, args...]` and changes nothing else |
| Client.WampClient.Publish | src/WAMP/WAMPClient.php:211-216 | sends exactly `[7, topicUri, payload, exclude, eligible]`, where exclude and eligible default to `[]` |
| Client.WampClient.Event | src/WAMP/WAMPClient.php:224-229 | sends exactly `[8, topicUri, payload]` and changes nothing else |

## Left out

- Socket I/O is not modelled: `stream_socket_client`, `fwrite`, `fgets`, `fread` and `fclose`. The socket outcome and the server's octets are inputs. Writes and closes are appended to `outbox`.
- The address string `host:port` passed to `stream_socket_client` is not modelled. The socket outcome is an input.
- Client.WampClient.Connect: requires that a whole frame follows an accepted status line. A short `fread` is not modelled, and neither is what PHP would do with it.
- Client.WampClient.Read: requires the whole frame on the stream, for the same reason. After `Disconnect`/`close` the stream is empty, so the model has no `read` there; PHP's `fread` on the closed resource returns FALSE with a warning (PHP 7) or throws a TypeError (PHP 8), and neither outcome is modelled.
- Client.Connection: requires the same frame availability as `Connect`.
- A payload length of 0 is modelled as an empty payload. It arises from a length octet of 0, or from octet 126 followed by the extension octets `00 00`. Both reach `fread($fd, 0)`, which PHP 8 rejects and PHP 7 answers with FALSE and a warning.
- Outbound framing and masking (`WebsocketPayload::encodePayload`) are not modelled. WebsocketPayload is not part of this model. `Send` records the message array itself.
- `json_encode` is not modelled. `json_decode` is an input function from octets to an optional array. JSON numbers are integers only.
- Client.Connection: uses strict equality for the WELCOME check. A payload that does not decode to an array counts as no WELCOME. PHP's loose `!=` would accept null, false or "0" in element 0.
- Randomness is not modelled. `md5(mt_rand())` is an input sequence of 16-octet digests. `uniqid` is the `callId` argument, so call-id uniqueness is not stated.
- `parse_url` itself is not modelled. Its result (scheme, host, port) is the constructor's input. A missing host becomes the empty text, as PHP's null does in concatenation.
- Exception messages are not modelled, except the status text `verifyResponse` reports. Exceptions become `Failure` results.
- The class-loading conflicts are not modelled. Both files declare `WAMP\WAMPClient`, and Client.php refers to `Protocol::` while Protocol.php declares `WAMPProtocol`.
- The two classes are one object model with an edition switch. `Connect` takes an optional target (default `/websocket/`) in both editions, and the FixedTarget edition ignores it.
- Client.WampClient.Send (and Prefix, Call, Publish and Event through it): `outbox` records what is handed to `fwrite`, in every state. When `$fd` is null (before any `connect`), FALSE (after a failed socket) or a closed stream (after `disconnect`/`close`), PHP 7 warns and writes nothing and PHP 8 throws a TypeError, while the model records the message.
- Client.WampClient.Disconnect: follows PHP 7 on a second call after a successful one. `$fd` still holds the closed resource, so the call returns TRUE and records a second `Close`; PHP 7 only warns that the resource is no longer a valid stream. PHP 8 instead throws a TypeError from the second `fclose`, and the model does not capture that.
