/** The SSM data channel as values: what each step of internal/backend/ssm/datachannel/channel.go does to
    the sender half and to the receiver half. The class DataChannel.Channel implements these steps. */
module ChannelSpec {
  import opened Octets
  import opened Wrappers
  import Rto

  const RESEND_MAX_ATTEMPT: nat := 3000
  const OUTGOING_MESSAGE_BUFFER_CAPACITY: nat := 10000

  type MessageId = Bytes

  datatype MessageType = InputStream | OutputStream | Acknowledge | ChannelClosed | UnknownType

  datatype PayloadType = Output | HandshakeRequest | HandshakeResponse | HandshakeComplete | OtherPayload

  /** acked is the message id named by the JSON body of an acknowledge message, None if it does not parse. */
  datatype Message = Message(mtype: MessageType, id: MessageId, seqNum: int, ptype: PayloadType,
                             payload: Bytes, acked: Option<MessageId>)

  datatype PendingMessage = PendingMessage(message: Message, sentAt: int, attempts: nat)

  datatype StreamingMessage = StreamingMessage(content: Message, sequenceNumber: int, messageID: MessageId,
                                               lastSentTime: int, resendAttempt: nat)

  /* ---------- the sender half ---------- */

  datatype Sender = Sender(sendSeqNum: int, pending: map<MessageId, PendingMessage>,
                           outgoing: seq<StreamingMessage>, estimator: Rto.Estimator)

  function InputMessage(seqNum: int, id: MessageId, ptype: PayloadType, payload: Bytes): Message {
    Message(InputStream, id, seqNum, ptype, payload, None)
  }

  /** Push at the back; at capacity the oldest entry makes room. */
  function Enqueue(outgoing: seq<StreamingMessage>, e: StreamingMessage): seq<StreamingMessage> {
    (if |outgoing| >= OUTGOING_MESSAGE_BUFFER_CAPACITY then outgoing[1..] else outgoing) + [e]
  }

  /** A data or handshake-response message leaves the application: it takes the next sequence number and
      is tracked, whether or not the websocket then accepts it. */
  function Send(s: Sender, ptype: PayloadType, payload: Bytes, id: MessageId, now: int): Sender {
    var m := InputMessage(s.sendSeqNum, id, ptype, payload);
    Sender(s.sendSeqNum + 1,
           s.pending[id := PendingMessage(m, now, 1)],
           Enqueue(s.outgoing, StreamingMessage(m, m.seqNum, id, now, 0)),
           s.estimator)
  }

  /** Position of the first entry carrying id, or the length when there is none. */
  function IndexOf(outgoing: seq<StreamingMessage>, id: MessageId): (k: nat)
    ensures k <= |outgoing|
    ensures forall i :: 0 <= i < k ==> outgoing[i].messageID != id
    ensures k < |outgoing| ==> outgoing[k].messageID == id
  {
    if outgoing == [] || outgoing[0].messageID == id then 0 else 1 + IndexOf(outgoing[1..], id)
  }

  /** An acknowledgement of id: pending forgets it, the buffer drops its entry, and the round trip is
      measured only if that entry was never resent (section 3 of RFC 6298). */
  function Acked(s: Sender, id: MessageId, now: int): Sender {
    var k := IndexOf(s.outgoing, id);
    if k == |s.outgoing| then s.(pending := s.pending - {id})
    else
      var e := s.outgoing[k];
      Sender(s.sendSeqNum, s.pending - {id}, s.outgoing[..k] + s.outgoing[k + 1..],
             if e.resendAttempt == 0
             then Rto.Update(s.estimator, Rto.MillisBetween(e.lastSentTime, now) as real)
             else s.estimator)
  }

  /** What a tick of the resend scheduler does about the front entry. */
  datatype Tick = Idle | NotDue | Exhausted | ResendFailed | Resent(content: Message)

  function TickOutcome(s: Sender, now: int, wsOk: bool): Tick {
    if s.outgoing == [] then Idle
    else if now - s.outgoing[0].lastSentTime <= s.estimator.rto then NotDue
    else if s.outgoing[0].resendAttempt >= RESEND_MAX_ATTEMPT then Exhausted
    else if !wsOk then ResendFailed
    else Resent(s.outgoing[0].content)
  }

  function Ticked(s: Sender, now: int, wsOk: bool): Sender {
    if TickOutcome(s, now, wsOk).Resent? then
      var e := s.outgoing[0];
      s.(outgoing := [e.(resendAttempt := e.resendAttempt + 1, lastSentTime := now)] + s.outgoing[1..])
    else s
  }

  /* ---------- the receiver half ---------- */

  datatype Receiver = Receiver(expected: int, incoming: map<int, Message>, output: seq<Bytes>)

  /** What deliverMessage hands to the output callback. */
  function Delivered(m: Message): seq<Bytes> {
    if m.ptype.Output? then [m.payload] else []
  }

  function DeliveredAll(ms: seq<Message>): seq<Bytes> {
    if ms == [] then [] else DeliveredAll(ms[..|ms| - 1]) + Delivered(ms[|ms| - 1])
  }

  /** Deliver buffered messages for as long as the next expected one is there. */
  function Drain(r: Receiver): Receiver
    decreases |r.incoming|
  {
    if r.expected in r.incoming then
      assert r.expected !in r.incoming - {r.expected};
      assert |(r.incoming - {r.expected}).Keys| < |r.incoming.Keys| by {
        assert (r.incoming - {r.expected}).Keys == r.incoming.Keys - {r.expected};
      }
      Drain(Receiver(r.expected + 1, r.incoming - {r.expected},
                     r.output + Delivered(r.incoming[r.expected])))
    else r
  }

  /** A data message of the sequenced stream arrives. */
  function Accept(r: Receiver, m: Message): Receiver {
    if m.seqNum == r.expected then
      Drain(Receiver(r.expected + 1, r.incoming, r.output + Delivered(m)))
    else if m.seqNum > r.expected then r.(incoming := r.incoming[m.seqNum := m])
    else r
  }

  /** HandshakeComplete: the next data message follows it; the buffer is left as it is. */
  function Completed(r: Receiver, m: Message): Receiver {
    r.(expected := m.seqNum + 1)
  }

  /* ---------- a whole channel end ---------- */

  /** wire lists the messages the websocket accepted, oldest first. */
  datatype End = End(snd: Sender, rcv: Receiver, wire: seq<Message>, handshakeComplete: bool, closed: bool)

  /** What the surroundings answer while one incoming message is processed: whether the websocket accepts
      the acknowledgement and the handshake response and closes without error, the response built for a
      handshake request (None if processing or building it fails), the fresh ids drawn, and the clock. */
  datatype Env = Env(ackOk: bool, responseOk: bool, closeOk: bool, response: Option<Bytes>, ackId: MessageId,
                     responseId: MessageId, now: int)

  /** The acknowledgement of m names m, under an id of its own. */
  function AckFor(m: Message, ackId: MessageId): Message {
    Message(Acknowledge, ackId, 0, Output, [], Some(m.id))
  }

  function Transmit(wire: seq<Message>, m: Message, ok: bool): seq<Message> {
    if ok then wire + [m] else wire
  }

  /** SendInputData, and the handshake response, which is sent the same way. */
  function SendStep(c: End, ptype: PayloadType, payload: Bytes, id: MessageId, now: int, wsOk: bool): End {
    c.(snd := Send(c.snd, ptype, payload, id, now),
       wire := Transmit(c.wire, InputMessage(c.snd.sendSeqNum, id, ptype, payload), wsOk))
  }

  /** A tick of the resend scheduler; a closed channel has none. */
  function TickStep(c: End, now: int, wsOk: bool): (End, Tick) {
    if c.closed then (c, Idle)
    else
      var tick := TickOutcome(c.snd, now, wsOk);
      (c.(snd := Ticked(c.snd, now, wsOk), wire := if tick.Resent? then c.wire + [tick.content] else c.wire), tick)
  }

  /** ProcessMessage; the boolean says that an error is returned. */
  function Process(c: End, m: Message, env: Env): (End, bool) {
    match m.mtype
    case Acknowledge =>
      if m.acked.None? then (c, true) else (c.(snd := Acked(c.snd, m.acked.value, env.now)), false)
    case OutputStream =>
      if !env.ackOk then (c, true)
      else
        var c1 := c.(wire := c.wire + [AckFor(m, env.ackId)]);
        (match m.ptype
         case HandshakeRequest => Respond(c1, env)
         case HandshakeComplete => (c1.(rcv := Completed(c1.rcv, m), handshakeComplete := true), false)
         case Output => (c1.(rcv := Accept(c1.rcv, m)), false)
         case _ => (c1, false))
    case InputStream =>
      if !env.ackOk then (c, true)
      else
        var c1 := c.(wire := c.wire + [AckFor(m, env.ackId)]);
        (match m.ptype
         case HandshakeRequest => Respond(c1, env)
         case HandshakeComplete => (c1.(rcv := Completed(c1.rcv, m), handshakeComplete := true), false)
         case _ => (c1.(rcv := c1.rcv.(output := c1.rcv.output + [m.payload])), false))
    case ChannelClosed => (c.(closed := true), !env.closeOk)
    case UnknownType => (c, false)
  }

  function Respond(c: End, env: Env): (End, bool) {
    if env.response.None? then (c, true)
    else (SendStep(c, HandshakeResponse, env.response.value, env.responseId, env.now, env.responseOk),
          !env.responseOk)
  }
}
