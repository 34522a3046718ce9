/** One end of the SSM data channel, as the object the program keeps: its fields are updated in place, and
    every method is tied to the step of ChannelSpec it performs. */
module DataChannel {
  import opened ChannelSpec
  import opened Octets
  import opened Wrappers
  import Rto

  class Channel {
    var sendSeqNum: int
    var expectedSeqNum: int
    var incomingBuffer: map<int, Message>
    var pendingMessages: map<MessageId, PendingMessage>
    var handshakeComplete: bool
    var outgoingBuffer: seq<StreamingMessage>
    var roundTripTime: real
    var roundTripTimeVariation: real
    var retransmissionTimeout: int
    var closed: bool
    var wire: seq<Message>  // what the websocket accepted, in order
    var output: seq<Bytes>  // what the output callback was given, in order

    ghost function Snd(): Sender
      reads this
    {
      Sender(sendSeqNum, pendingMessages, outgoingBuffer,
             Rto.Estimator(roundTripTime, roundTripTimeVariation, retransmissionTimeout))
    }

    ghost function Rcv(): Receiver
      reads this
    {
      Receiver(expectedSeqNum, incomingBuffer, output)
    }

    ghost function State(): End
      reads this
    {
      End(Snd(), Rcv(), wire, handshakeComplete, closed)
    }

    constructor ()
      ensures State() == End(Sender(0, map[], [], Rto.INITIAL), Receiver(0, map[], []), [], false, false)
    {
      sendSeqNum, expectedSeqNum := 0, 0;
      incomingBuffer, pendingMessages, outgoingBuffer := map[], map[], [];
      handshakeComplete, closed := false, false;
      roundTripTime := Rto.DEFAULT_ROUND_TRIP_TIME;
      roundTripTimeVariation := Rto.DEFAULT_ROUND_TRIP_TIME_VARIATION;
      retransmissionTimeout := Rto.DEFAULT_TRANSMISSION_TIMEOUT;
      wire, output := [], [];
    }

    /** Draws the next sequence number and sends. The error says that the websocket refused. */
    method SendInputData(payload: Bytes, id: MessageId, now: int, wsOk: bool) returns (err: bool)
      modifies this
      ensures State() == SendStep(old(State()), Output, payload, id, now, wsOk)
      ensures wire == old(wire)
                      + if wsOk then [Message(InputStream, id, old(sendSeqNum), Output, payload, None)] else []
      ensures err == !wsOk
    {
      var seqNum := sendSeqNum;
      sendSeqNum := sendSeqNum + 1;
      err := SendMessage(InputMessage(seqNum, id, Output, payload), now, wsOk);
    }

    method SendHandshakeResponse(payload: Bytes, id: MessageId, now: int, wsOk: bool) returns (err: bool)
      modifies this
      ensures State() == SendStep(old(State()), HandshakeResponse, payload, id, now, wsOk)
      ensures wire == old(wire)
                      + if wsOk then [Message(InputStream, id, old(sendSeqNum), HandshakeResponse, payload, None)]
                        else []
      ensures err == !wsOk
    {
      var seqNum := sendSeqNum;
      sendSeqNum := sendSeqNum + 1;
      err := SendMessage(InputMessage(seqNum, id, HandshakeResponse, payload), now, wsOk);
    }

    /** Tracks an input message, and no other, before handing it to the websocket, whatever the websocket
        then says. */
    method SendMessage(m: Message, now: int, wsOk: bool) returns (err: bool)
      modifies this`pendingMessages, this`outgoingBuffer, this`wire
      ensures pendingMessages == if m.mtype.InputStream? then old(pendingMessages)[m.id := PendingMessage(m, now, 1)]
                                 else old(pendingMessages)
      ensures outgoingBuffer == if m.mtype.InputStream?
                                then Enqueue(old(outgoingBuffer), StreamingMessage(m, m.seqNum, m.id, now, 0))
                                else old(outgoingBuffer)
      ensures wire == old(wire) + if wsOk then [m] else []
      ensures err == !wsOk
    {
      if m.mtype.InputStream? {
        pendingMessages := pendingMessages[m.id := PendingMessage(m, now, 1)];
        AddToOutgoingBuffer(StreamingMessage(m, m.seqNum, m.id, now, 0));
      }
      if wsOk {
        wire := wire + [m];
      }
      err := !wsOk;
    }

    method AddToOutgoingBuffer(e: StreamingMessage)
      modifies this`outgoingBuffer
      ensures outgoingBuffer == Enqueue(old(outgoingBuffer), e)
    {
      if |outgoingBuffer| >= OUTGOING_MESSAGE_BUFFER_CAPACITY {
        outgoingBuffer := outgoingBuffer[1..];
      }
      outgoingBuffer := outgoingBuffer + [e];
    }

    method ProcessMessage(m: Message, env: Env) returns (err: bool)
      modifies this
      ensures (State(), err) == Process(old(State()), m, env)
    {
      match m.mtype {
        case Acknowledge =>
          if m.acked.None? {
            return true;
          }
          ProcessAcknowledge(m.acked.value, env.now);
          err := false;
        case OutputStream => err := ProcessOutputMessage(m, env);
        case InputStream => err := ProcessInputMessage(m, env);
        case ChannelClosed =>
          closed := true;
          err := !env.closeOk;
        case UnknownType => err := false;
      }
    }

    /** Scans the buffer from the front for the acknowledged message and removes it there. */
    method ProcessAcknowledge(id: MessageId, now: int)
      modifies this
      ensures State() == old(State()).(snd := Acked(old(Snd()), id, now))
    {
      pendingMessages := pendingMessages - {id};
      var i := 0;
      while i < |outgoingBuffer|
        invariant 0 <= i <= |outgoingBuffer|
        invariant outgoingBuffer == old(outgoingBuffer)
        invariant forall j :: 0 <= j < i ==> outgoingBuffer[j].messageID != id
        invariant State() == old(State()).(snd := old(Snd()).(pending := old(pendingMessages) - {id}))
      {
        var e := outgoingBuffer[i];
        if e.messageID == id {
          if e.resendAttempt == 0 {
            CalculateRetransmissionTimeout(e.lastSentTime, now);
          }
          outgoingBuffer := outgoingBuffer[..i] + outgoingBuffer[i + 1..];
          return;
        }
        i := i + 1;
      }
    }

    method CalculateRetransmissionTimeout(lastSentTime: int, now: int)
      modifies this`roundTripTime, this`roundTripTimeVariation, this`retransmissionTimeout
      ensures Snd().estimator == Rto.Update(old(Snd()).estimator, Rto.MillisBetween(lastSentTime, now) as real)
    {
      var newRTT := Rto.MillisBetween(lastSentTime, now) as real;
      roundTripTimeVariation := (1.0 - Rto.RTTV_CONSTANT) * roundTripTimeVariation
                                + Rto.RTTV_CONSTANT * Rto.Abs(roundTripTime - newRTT);
      roundTripTime := (1.0 - Rto.RTT_CONSTANT) * roundTripTime + Rto.RTT_CONSTANT * newRTT;
      var rto := roundTripTime + Rto.Max((Rto.CLOCK_GRANULARITY / Rto.NS_PER_MS) as real,
                                         4.0 * roundTripTimeVariation);
      retransmissionTimeout := Rto.Truncate(rto) * Rto.NS_PER_MS;
      if retransmissionTimeout > Rto.MAX_TRANSMISSION_TIMEOUT {
        retransmissionTimeout := Rto.MAX_TRANSMISSION_TIMEOUT;
      }
    }

    /** Acknowledges m by name; this write alone decides whether m is looked at. */
    method SendAcknowledge(m: Message, ackId: MessageId, wsOk: bool) returns (err: bool)
      modifies this`wire
      ensures wsOk ==> wire == old(wire) + [Message(Acknowledge, ackId, 0, Output, [], Some(m.id))]
      ensures !wsOk ==> wire == old(wire)
      ensures err == !wsOk
    {
      if wsOk {
        wire := wire + [Message(Acknowledge, ackId, 0, Output, [], Some(m.id))];
      }
      err := !wsOk;
    }

    method ProcessOutputMessage(m: Message, env: Env) returns (err: bool)
      requires m.mtype.OutputStream?
      modifies this
      ensures (State(), err) == Process(old(State()), m, env)
      ensures !env.ackOk ==> err && State() == old(State())
      ensures env.ackOk ==> old(wire) + [Message(Acknowledge, env.ackId, 0, Output, [], Some(m.id))] <= wire
    {
      err := SendAcknowledge(m, env.ackId, env.ackOk);
      if err {
        return true;
      }
      match m.ptype {
        case HandshakeRequest => err := HandleHandshakeRequest(env);
        case HandshakeComplete =>
          HandleHandshakeComplete(m);
          err := false;
        case Output =>
          Sequence(m);
          err := false;
        case _ => err := false;
      }
    }

    /** Orders one data message: what becomes deliverable is collected first and handed out afterwards,
        outside the lock. */
    method Sequence(m: Message)
      modifies this`expectedSeqNum, this`incomingBuffer, this`output
      ensures Rcv() == Accept(old(Rcv()), m)
    {
      var toDeliver := Collect(m);
      DeliverAll(toDeliver);
    }

    /** The part under the lock: advances past m and everything buffered behind it. */
    method Collect(m: Message) returns (toDeliver: seq<Message>)
      modifies this`expectedSeqNum, this`incomingBuffer
      ensures Receiver(expectedSeqNum, incomingBuffer, output + DeliveredAll(toDeliver)) == Accept(old(Rcv()), m)
    {
      toDeliver := [];
      assert output + DeliveredAll([]) == output;
      if m.seqNum == expectedSeqNum {
        toDeliver := [m];
        assert DeliveredAll([m]) == Delivered(m) by { DeliveredAllLast([], m); assert [] + [m] == [m]; }
        expectedSeqNum := expectedSeqNum + 1;
        while expectedSeqNum in incomingBuffer
          invariant Drain(Receiver(expectedSeqNum, incomingBuffer, output + DeliveredAll(toDeliver)))
                    == Accept(old(Rcv()), m)
          decreases |incomingBuffer|
        {
          var buffered := incomingBuffer[expectedSeqNum];
          ghost var r := Receiver(expectedSeqNum, incomingBuffer, output + DeliveredAll(toDeliver));
          ghost var next := Receiver(r.expected + 1, r.incoming - {r.expected}, r.output + Delivered(buffered));
          assert Drain(r) == Drain(next);
          DeliveredAllLast(toDeliver, buffered);
          toDeliver := toDeliver + [buffered];
          assert (incomingBuffer - {expectedSeqNum}).Keys == incomingBuffer.Keys - {expectedSeqNum};
          incomingBuffer := incomingBuffer - {expectedSeqNum};
          expectedSeqNum := expectedSeqNum + 1;
          assert next.output == output + DeliveredAll(toDeliver);
        }
      } else if m.seqNum > expectedSeqNum {
        incomingBuffer := incomingBuffer[m.seqNum := m];
      }
    }

    method DeliverAll(toDeliver: seq<Message>)
      modifies this`output
      ensures output == old(output) + DeliveredAll(toDeliver)
    {
      for i := 0 to |toDeliver|
        invariant output == old(output) + DeliveredAll(toDeliver[..i])
      {
        DeliveredSoFar(toDeliver, i);
        DeliverMessage(toDeliver[i]);
      }
      assert toDeliver[..|toDeliver|] == toDeliver;
    }

    method DeliverMessage(m: Message)
      modifies this`output
      ensures output == old(output) + Delivered(m)
    {
      if m.ptype.Output? {
        output := output + [m.payload];
      }
    }

    /** Input messages bypass the sequencing: their payload goes straight to the callback. */
    method ProcessInputMessage(m: Message, env: Env) returns (err: bool)
      requires m.mtype.InputStream?
      modifies this
      ensures (State(), err) == Process(old(State()), m, env)
      ensures !env.ackOk ==> err && State() == old(State())
      ensures env.ackOk ==> old(wire) + [Message(Acknowledge, env.ackId, 0, Output, [], Some(m.id))] <= wire
      ensures env.ackOk && !m.ptype.HandshakeRequest? && !m.ptype.HandshakeComplete?
              ==> output == old(output) + [m.payload]
    {
      err := SendAcknowledge(m, env.ackId, env.ackOk);
      if err {
        return true;
      }
      match m.ptype {
        case HandshakeRequest => err := HandleHandshakeRequest(env);
        case HandshakeComplete =>
          HandleHandshakeComplete(m);
          err := false;
        case _ =>
          output := output + [m.payload];
          err := false;
      }
    }

    method HandleHandshakeRequest(env: Env) returns (err: bool)
      modifies this
      ensures (State(), err) == Respond(old(State()), env)
      ensures env.response.Some? && env.responseOk ==>
                wire == old(wire) + [Message(InputStream, env.responseId, old(sendSeqNum), HandshakeResponse,
                                             env.response.value, None)]
    {
      if env.response.None? {
        return true;
      }
      err := SendHandshakeResponse(env.response.value, env.responseId, env.now, env.responseOk);
    }

    method HandleHandshakeComplete(m: Message)
      modifies this`handshakeComplete, this`expectedSeqNum
      ensures handshakeComplete && Rcv() == Completed(old(Rcv()), m)
    {
      handshakeComplete := true;
      expectedSeqNum := m.seqNum + 1;
    }

    /** One tick of the resend scheduler; only the front entry is ever looked at. */
    method CheckAndResend(now: int, wsOk: bool) returns (tick: Tick)
      modifies this`outgoingBuffer, this`wire
      ensures (State(), tick) == TickStep(old(State()), now, wsOk)
      ensures wire == old(wire) + if tick.Resent? then [tick.content] else []
    {
      if closed || outgoingBuffer == [] {
        return Idle;
      }
      var m := outgoingBuffer[0];
      if now - m.lastSentTime <= retransmissionTimeout {
        return NotDue;
      }
      if m.resendAttempt >= RESEND_MAX_ATTEMPT {
        return Exhausted;
      }
      if !wsOk {
        return ResendFailed;
      }
      wire := wire + [m.content];
      outgoingBuffer := outgoingBuffer[0 := m.(resendAttempt := m.resendAttempt + 1, lastSentTime := now)];
      assert outgoingBuffer == Ticked(old(Snd()), now, wsOk).outgoing;
      return Resent(m.content);
    }
  }

  lemma DeliveredSoFar(ms: seq<Message>, i: nat)
    requires i < |ms|
    ensures forall before: seq<Bytes> ::
              before + DeliveredAll(ms[..i + 1]) == before + DeliveredAll(ms[..i]) + Delivered(ms[i])
  {
    DeliveredAllLast(ms[..i], ms[i]);
    assert ms[..i] + [ms[i]] == ms[..i + 1];
  }

  lemma DeliveredAllLast(ms: seq<Message>, m: Message)
    ensures DeliveredAll(ms + [m]) == DeliveredAll(ms) + Delivered(m)
  {
    assert (ms + [m])[..|ms|] == ms;
  }
}
