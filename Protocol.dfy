/** The WAMP version 1 message-type codes (class WAMPProtocol). */
module Protocol {
  import opened Wrappers

  datatype MessageType =
    | Welcome
    | Prefix
    | Call
    | CallResult
    | CallError
    | Subscribe
    | Unsubscribe
    | Publish
    | Event

  /** The integer sent as element 0 of a message of this type. */
  function Code(t: MessageType): (c: nat)
    ensures c <= 8
    ensures c == 0 <==> t == Welcome
  {
    match t
    case Welcome => 0
    case Prefix => 1
    case Call => 2
    case CallResult => 3
    case CallError => 4
    case Subscribe => 5
    case Unsubscribe => 6
    case Publish => 7
    case Event => 8
  }

  /** The message type an integer tag denotes, if any. */
  function FromCode(c: int): (r: Option<MessageType>)
    ensures r.Some? <==> 0 <= c <= 8
  {
    if c == 0 then Some(Welcome)
    else if c == 1 then Some(Prefix)
    else if c == 2 then Some(Call)
    else if c == 3 then Some(CallResult)
    else if c == 4 then Some(CallError)
    else if c == 5 then Some(Subscribe)
    else if c == 6 then Some(Unsubscribe)
    else if c == 7 then Some(Publish)
    else if c == 8 then Some(Event)
    else None
  }

  /** Decoding a tag recovers the type it was encoded from ... */
  lemma FromCodeOfCode(t: MessageType)
    ensures FromCode(Code(t)) == Some(t)
  {
  }

  /** ... and every tag that decodes was produced by encoding. */
  lemma CodeOfFromCode(c: int)
    requires FromCode(c).Some?
    ensures Code(FromCode(c).value) == c
  {
  }

  /** The nine codes are pairwise distinct. */
  lemma CodeInjective(s: MessageType, t: MessageType)
    requires Code(s) == Code(t)
    ensures s == t
  {
    FromCodeOfCode(s);
    FromCodeOfCode(t);
  }
}
