/** The data channel steps speak of abstract messages; the wire carries bytes. A well-made message crosses
    from one to the other unchanged, the damaged digest notwithstanding, because no step reads it. */
module WireBridge {
  import opened Octets
  import opened Wrappers
  import opened ClientMessages
  import ChannelSpec

  /** output_stream_data */
  const OUTPUT_STREAM_MESSAGE: Bytes :=
    [111, 117, 116, 112, 117, 116, 95, 115, 116, 114, 101, 97, 109, 95, 100, 97, 116, 97]
  /** acknowledge */
  const ACKNOWLEDGE_MESSAGE: Bytes := [97, 99, 107, 110, 111, 119, 108, 101, 100, 103, 101]
  /** channel_closed */
  const CHANNEL_CLOSED_MESSAGE: Bytes := [99, 104, 97, 110, 110, 101, 108, 95, 99, 108, 111, 115, 101, 100]

  function TypeOf(messageType: Bytes): ChannelSpec.MessageType {
    if messageType == ACKNOWLEDGE_MESSAGE then ChannelSpec.Acknowledge
    else if messageType == OUTPUT_STREAM_MESSAGE then ChannelSpec.OutputStream
    else if messageType == INPUT_STREAM_MESSAGE then ChannelSpec.InputStream
    else if messageType == CHANNEL_CLOSED_MESSAGE then ChannelSpec.ChannelClosed
    else ChannelSpec.UnknownType
  }

  function PayloadOf(payloadType: u32): ChannelSpec.PayloadType {
    if payloadType == 1 then ChannelSpec.Output
    else if payloadType == 5 then ChannelSpec.HandshakeRequest
    else if payloadType == 6 then ChannelSpec.HandshakeResponse
    else if payloadType == 7 then ChannelSpec.HandshakeComplete
    else ChannelSpec.OtherPayload
  }

  /** The name a known type has on the wire. */
  function NameOf(t: ChannelSpec.MessageType): Bytes
    requires !t.UnknownType?
  {
    match t
    case Acknowledge => ACKNOWLEDGE_MESSAGE
    case OutputStream => OUTPUT_STREAM_MESSAGE
    case InputStream => INPUT_STREAM_MESSAGE
    case ChannelClosed => CHANNEL_CLOSED_MESSAGE
  }

  function CodeOf(p: ChannelSpec.PayloadType): u32
    requires !p.OtherPayload?
  {
    match p
    case Output => 1
    case HandshakeRequest => 5
    case HandshakeResponse => 6
    case HandshakeComplete => 7
  }

  /** Reading a name or a code inverts writing it, and nothing else is read as that type. */
  lemma NamesAndCodes(name: Bytes, code: u32, t: ChannelSpec.MessageType, p: ChannelSpec.PayloadType)
    ensures !t.UnknownType? ==> (TypeOf(name) == t <==> name == NameOf(t))
    ensures !p.OtherPayload? ==> (PayloadOf(code) == p <==> code == CodeOf(p))
  {
    assert |ACKNOWLEDGE_MESSAGE| == 11 && |OUTPUT_STREAM_MESSAGE| == 18;
    assert |INPUT_STREAM_MESSAGE| == 17 && |CHANNEL_CLOSED_MESSAGE| == 14;
  }

  /** The abstract message; ackBody reads the JSON body of an acknowledgement. */
  function Abstract(m: ClientMessage, ackBody: Bytes -> Option<Bytes>): ChannelSpec.Message {
    ChannelSpec.Message(TypeOf(m.messageType), m.messageID, m.sequenceNumber, PayloadOf(m.payloadType), m.payload,
                        if m.messageType == ACKNOWLEDGE_MESSAGE then ackBody(m.payload) else None)
  }

  /** What the far end dispatches on is what the near end sent. */
  lemma WirePreservesMessage(m: ClientMessage, ackBody: Bytes -> Option<Bytes>)
    requires WellMade(m) && TypeFits(m.messageType)
    ensures Parse(Wire(m)).Ok? && Abstract(Parse(Wire(m)).value, ackBody) == Abstract(m, ackBody)
  {
    RoundTripButDigest(m);
  }

  /** A message that names a known type and code on the wire arrives as just that. */
  lemma ArrivesAsNamed(m: ClientMessage, t: ChannelSpec.MessageType, p: ChannelSpec.PayloadType,
                       ackBody: Bytes -> Option<Bytes>)
    requires WellMade(m) && !t.UnknownType? && m.messageType == NameOf(t)
    requires !p.OtherPayload? && m.payloadType == CodeOf(p)
    ensures Parse(Wire(m)).Ok?
    ensures Abstract(Parse(Wire(m)).value, ackBody)
            == ChannelSpec.Message(t, m.messageID, m.sequenceNumber, p, m.payload,
                                   if t.Acknowledge? then ackBody(m.payload) else None)
  {
    WirePreservesMessage(m, ackBody);
    NamesAndCodes(m.messageType, m.payloadType, t, p);
    NamesAndCodes(m.messageType, m.payloadType, ChannelSpec.Acknowledge, p);
  }

  /** The bytes SendInputData puts on the wire parse back to the message the channel model sends. */
  lemma SentBytesAreTheMessage(payload: Bytes, n: i64, digest: Bytes, id: Uuid, created: u64,
                               ackBody: Bytes -> Option<Bytes>)
    requires |digest| == 32 && |payload| < 0x1_0000_0000
    ensures var w := Wire(NewInputStreamMessage(payload, n, digest, id, created));
      Parse(w).Ok?
      && Abstract(Parse(w).value, ackBody)
         == ChannelSpec.InputMessage(n, id, ChannelSpec.Output, payload)
  {
    InputMessageSurvivesIff(payload, n, digest, id, created);
  }
}
