/**
 * The WAMP messages the client sends: JSON arrays whose element 0 is the
 * message-type code, built by `prefix`, `call`, `publish` and `event`.
 */
module Messages {
  import opened Wrappers
  import opened Protocol

  /** A decoded JSON value; numbers are modelled as integers. */
  datatype Json =
    | JNull
    | JBool(b: bool)
    | JInt(i: int)
    | JString(s: string)
    | JArray(items: seq<Json>)
    | JObject(members: seq<(string, Json)>)

  /** The four outbound messages with the fields the client supplies. */
  datatype Outbound =
    | PrefixMsg(prefix: Json, uri: Json)
    | CallMsg(callId: string, procUri: Json, args: seq<Json>)
    | PublishMsg(topicUri: Json, payload: Json, exclude: Json, eligible: Json)
    | EventMsg(topicUri: Json, payload: Json)

  function KindOf(o: Outbound): MessageType
  {
    match o
    case PrefixMsg(_, _) => Prefix
    case CallMsg(_, _, _) => Call
    case PublishMsg(_, _, _, _) => Publish
    case EventMsg(_, _) => Event
  }

  /** The JSON array sent for an outbound message. */
  function Build(o: Outbound): (m: seq<Json>)
    ensures |m| >= 3 && m[0] == JInt(Code(KindOf(o)))
    ensures o.CallMsg? ==> |m| == 3 + |o.args|
    ensures o.PublishMsg? ==> |m| == 5
    ensures o.PrefixMsg? || o.EventMsg? ==> |m| == 3
  {
    match o
    case PrefixMsg(prefix, uri) => [JInt(Code(Prefix)), prefix, uri]
    case CallMsg(callId, procUri, args) => [JInt(Code(Call)), JString(callId), procUri] + args
    case PublishMsg(topicUri, payload, exclude, eligible) =>
      [JInt(Code(Publish)), topicUri, payload, exclude, eligible]
    case EventMsg(topicUri, payload) => [JInt(Code(Event)), topicUri, payload]
  }

  /** Reads a JSON array back as one of the four outbound messages, if it is one. */
  function Parse(m: seq<Json>): (r: Option<Outbound>)
    ensures r.Some? ==> |m| >= 3 && m[0] == JInt(Code(KindOf(r.value)))
  {
    if |m| < 3 || !m[0].JInt? then None
    else match FromCode(m[0].i)
      case Some(Prefix) =>
        if |m| == 3 then Some(PrefixMsg(m[1], m[2])) else None
      case Some(Call) =>
        if m[1].JString? then Some(CallMsg(m[1].s, m[2], m[3..])) else None
      case Some(Publish) =>
        if |m| == 5 then Some(PublishMsg(m[1], m[2], m[3], m[4])) else None
      case Some(Event) =>
        if |m| == 3 then Some(EventMsg(m[1], m[2])) else None
      case _ => None
  }

  /** Every message the client builds is read back as itself. */
  lemma ParseBuild(o: Outbound)
    ensures Parse(Build(o)) == Some(o)
  {
    var m := Build(o);
    FromCodeOfCode(KindOf(o));
    if o.CallMsg? {
      assert m[3..] == o.args;
    }
  }

  /** Every array that reads as an outbound message is exactly the one built from it. */
  lemma BuildParse(m: seq<Json>)
    requires Parse(m).Some?
    ensures Build(Parse(m).value) == m
  {
    var o := Parse(m).value;
    if o.CallMsg? {
      assert m == [m[0], m[1], m[2]] + m[3..];
    } else if o.PublishMsg? {
      assert m == [m[0], m[1], m[2], m[3], m[4]];
    } else {
      assert m == [m[0], m[1], m[2]];
    }
  }

  /** Building is injective: two different messages never produce the same array. */
  lemma BuildInjective(a: Outbound, b: Outbound)
    requires Build(a) == Build(b)
    ensures a == b
  {
    ParseBuild(a);
    ParseBuild(b);
  }

  /**
   * The client only ever emits PREFIX, CALL, PUBLISH and EVENT; the codes of
   * CALLRESULT, CALLERROR, SUBSCRIBE and UNSUBSCRIBE never head a built message.
   */
  lemma EmittedKinds(o: Outbound)
    ensures Build(o)[0] in {JInt(1), JInt(2), JInt(7), JInt(8)}
    ensures Build(o)[0] !in {JInt(3), JInt(4), JInt(5), JInt(6)}
  {
  }
}
