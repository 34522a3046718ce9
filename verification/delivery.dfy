/** The sender half of one channel end and the receiver half of its peer, joined by a network that may
    drop, duplicate and reorder both messages and acknowledgements. A run is a list of actions; what is
    proved here holds after every run. */
module Delivery {
  import opened ChannelSpec
  import opened Octets
  import opened ReceiverFacts
  import Rto

  /** One round-trip measurement the estimator may use. */
  datatype Sample = Sample(id: MessageId, millis: int)

  /** net and acks hold everything either websocket ever accepted: an element may arrive any number of
      times, at any later moment, or never. The remaining fields after arrived are a history that no step
      consults: who was sent, acknowledged and evicted, how often each message went out, and the round
      trips of messages acknowledged out of the buffer that had not been resent. */
  datatype System = System(
    base: int, start: Rto.Settled, snd: Sender, rcv: Receiver, clock: int, net: set<Message>, acks: set<MessageId>,
    sent: seq<Message>, arrived: Arrived, acked: set<MessageId>, evicted: set<MessageId>,
    sentAt: map<MessageId, int>, transmissions: map<MessageId, nat>, resends: map<MessageId, nat>,
    samples: seq<Sample>)

  datatype Action =
    | SendData(payload: Bytes, id: MessageId, now: int, wsOk: bool)
    | ResendTick(now: int, wsOk: bool)
    | MessageArrives(m: Message, ackOk: bool)
    | AckArrives(id: MessageId, now: int)

  /** Both halves right after the handshake, the next sequence number being base. The handshake response
      may have been measured already, so the estimator need not be the default one. */
  function Init(base: int, clock: int, start: Rto.Settled): System {
    System(base, start, Sender(base, map[], [], start), Fresh(base), clock, {}, {},
           [], map[], {}, {}, map[], map[], map[], [])
  }

  function SentIds(sent: seq<Message>): set<MessageId> {
    if sent == [] then {} else SentIds(sent[..|sent| - 1]) + {sent[|sent| - 1].id}
  }

  function BufferIds(outgoing: seq<StreamingMessage>): set<MessageId> {
    if outgoing == [] then {} else BufferIds(outgoing[..|outgoing| - 1]) + {outgoing[|outgoing| - 1].messageID}
  }

  predicate WasSent(sent: seq<Message>, id: MessageId) {
    id in SentIds(sent)
  }

  /** Message ids are fresh, the clock does not run backwards, and only what was transmitted arrives. */
  predicate Enabled(s: System, a: Action) {
    match a
    case SendData(_, id, now, _) => !WasSent(s.sent, id) && s.clock <= now
    case ResendTick(now, _) => s.clock <= now
    case MessageArrives(m, _) => m in s.net
    case AckArrives(id, now) => id in s.acks && s.clock <= now
  }

  function Evicting(s: System): set<MessageId> {
    if |s.snd.outgoing| >= OUTGOING_MESSAGE_BUFFER_CAPACITY then {s.snd.outgoing[0].messageID} else {}
  }

  function Next(s: System, a: Action): System
    requires Enabled(s, a)
  {
    match a
    case SendData(payload, id, now, wsOk) => NextSend(s, payload, id, now, wsOk)
    case ResendTick(now, wsOk) => NextTick(s, now, wsOk)
    case MessageArrives(m, ackOk) => NextArrival(s, m, ackOk)
    case AckArrives(id, now) => NextAck(s, id, now)
  }

  function NextSend(s: System, payload: Bytes, id: MessageId, now: int, wsOk: bool): System {
    var m := InputMessage(s.snd.sendSeqNum, id, Output, payload);
    s.(snd := Send(s.snd, Output, payload, id, now),
       clock := now,
       net := if wsOk then s.net + {m} else s.net,
       sent := s.sent + [m],
       evicted := s.evicted + Evicting(s),
       sentAt := s.sentAt[id := now],
       transmissions := s.transmissions[id := if wsOk then 1 else 0],
       resends := s.resends[id := 0])
  }

  function NextTick(s: System, now: int, wsOk: bool): System {
    var s1 := s.(snd := Ticked(s.snd, now, wsOk), clock := now);
    match TickOutcome(s.snd, now, wsOk)
    case Resent(m) =>
      s1.(net := s.net + {m},
          transmissions := s.transmissions[m.id := Count(s.transmissions, m.id) + 1],
          resends := s.resends[m.id := Count(s.resends, m.id) + 1])
    case _ => s1
  }

  /** processOutputMessage acknowledges first; if that fails it returns before looking at the message. */
  function NextArrival(s: System, m: Message, ackOk: bool): System {
    if !ackOk then s
    else s.(rcv := Accept(s.rcv, m), acks := s.acks + {m.id}, arrived := Arrive(s.arrived, s.base, m))
  }

  function NextAck(s: System, id: MessageId, now: int): System {
    s.(snd := Acked(s.snd, id, now),
       clock := now,
       acked := s.acked + {id},
       samples := if Measurable(s, id)
                  then s.samples + [Sample(id, Rto.MillisBetween(s.sentAt[id], now))] else s.samples)
  }

  function Count(m: map<MessageId, nat>, id: MessageId): nat {
    if id in m then m[id] else 0
  }

  /** Karn's rule, read off the history: still buffered, and never resent. */
  predicate Measurable(s: System, id: MessageId) {
    id in s.sentAt && id !in s.acked && id !in s.evicted && Count(s.resends, id) == 0
  }

  predicate Legal(s: System, run: seq<Action>)
    decreases |run|
  {
    run != [] ==> Enabled(s, run[0]) && Legal(Next(s, run[0]), run[1..])
  }

  function After(s: System, run: seq<Action>): System
    requires Legal(s, run)
    decreases |run|
  {
    if run == [] then s else After(Next(s, run[0]), run[1..])
  }

  /* ---------- the invariant ---------- */

  /** Sent messages are numbered consecutively from base and carry distinct ids. */
  ghost predicate Numbered(base: int, sendSeqNum: int, sent: seq<Message>) {
    && sendSeqNum == base + |sent|
    && (forall i :: 0 <= i < |sent| ==>
          sent[i] == InputMessage(base + i, sent[i].id, Output, sent[i].payload))
    && (forall i, j :: 0 <= i < j < |sent| ==> sent[i].id != sent[j].id)
  }

  /** m is the sent message numbered n. */
  predicate InStream(base: int, sent: seq<Message>, n: int, m: Message) {
    base <= n < base + |sent| && sent[n - base] == m
  }

  /** The buffer: bounded, strictly ascending, and made of sent messages. */
  ghost predicate BufferOk(base: int, sent: seq<Message>, outgoing: seq<StreamingMessage>) {
    && |outgoing| <= OUTGOING_MESSAGE_BUFFER_CAPACITY
    && (forall i, j :: 0 <= i < j < |outgoing| ==> outgoing[i].sequenceNumber < outgoing[j].sequenceNumber)
    && (forall i {:trigger EntryOk(base, sent, outgoing[i])} ::
          0 <= i < |outgoing| ==> EntryOk(base, sent, outgoing[i]))
  }

  ghost predicate EntryOk(base: int, sent: seq<Message>, e: StreamingMessage) {
    InStream(base, sent, e.sequenceNumber, e.content) && e.messageID == e.content.id
  }

  predicate Buffered(outgoing: seq<StreamingMessage>, id: MessageId) {
    id in BufferIds(outgoing)
  }

  /** Only the front entry may have been resent, and the counts in the entries are the true ones. */
  ghost predicate HeadOnly(outgoing: seq<StreamingMessage>, resends: map<MessageId, nat>,
                           sentAt: map<MessageId, int>, clock: int) {
    && (forall i :: 0 < i < |outgoing| ==> outgoing[i].resendAttempt == 0)
    && (forall i {:trigger Counted(outgoing[i], resends, sentAt, clock)} ::
          0 <= i < |outgoing| ==> Counted(outgoing[i], resends, sentAt, clock))
  }

  ghost predicate Counted(e: StreamingMessage, resends: map<MessageId, nat>, sentAt: map<MessageId, int>,
                          clock: int) {
    && e.messageID in resends && e.resendAttempt == resends[e.messageID]
    && e.messageID in sentAt
    && (e.resendAttempt == 0 ==> e.lastSentTime == sentAt[e.messageID])
    && e.lastSentTime <= clock
  }

  /** How often each message was accepted by the websocket: never more than once plus its resends, and
      resent at most 3000 times. */
  ghost predicate Transmitted(sent: seq<Message>, net: set<Message>, transmissions: map<MessageId, nat>,
                              resends: map<MessageId, nat>) {
    && transmissions.Keys == resends.Keys
    && (forall id :: id in resends ==> WasSent(sent, id))
    && (forall id :: id in resends ==>
          resends[id] <= RESEND_MAX_ATTEMPT && resends[id] <= transmissions[id] <= 1 + resends[id])
    && (forall i :: 0 <= i < |sent| ==>
          sent[i].id in transmissions && (sent[i] in net <==> transmissions[sent[i].id] > 0))
  }

  /** Every sent message is exactly one of: acknowledged, buffered, evicted and still unacknowledged. */
  ghost predicate Conserved(sent: seq<Message>, outgoing: seq<StreamingMessage>, acked: set<MessageId>,
                            evicted: set<MessageId>) {
    && (forall i :: 0 <= i < |sent| ==>
          (Buffered(outgoing, sent[i].id) <==> sent[i].id !in acked && sent[i].id !in evicted))
    && (forall id :: id in acked || id in evicted ==> WasSent(sent, id))
  }

  /** pendingMessages is exactly the unacknowledged part. */
  ghost predicate PendingOk(sent: seq<Message>, pending: map<MessageId, PendingMessage>, acked: set<MessageId>) {
    && (forall i :: 0 <= i < |sent| ==> (sent[i].id in pending <==> sent[i].id !in acked))
    && (forall i :: 0 <= i < |sent| && sent[i].id in pending ==> pending[sent[i].id].message == sent[i])
    && (forall id :: id in pending ==> WasSent(sent, id))
  }

  function Millis(samples: seq<Sample>): (r: seq<real>)
    ensures |r| == |samples|
  {
    if samples == [] then [] else Millis(samples[..|samples| - 1]) + [samples[|samples| - 1].millis as real]
  }

  /** The estimator has been fed exactly the recorded samples, each from a message never resent. */
  ghost predicate Estimated(start: Rto.Settled, e: Rto.Estimator, samples: seq<Sample>, resends: map<MessageId, nat>,
                            acked: set<MessageId>) {
    && e == Rto.UpdateAll(start, Millis(samples))
    && 0.0 <= e.rtt && Rto.TimeoutInBounds(e)
    && (forall i :: 0 <= i < |samples| ==>
          && samples[i].id in acked && samples[i].id in resends && resends[samples[i].id] == 0
          && 0 <= samples[i].millis)
    && (forall i, j :: 0 <= i < j < |samples| ==> samples[i].id != samples[j].id)
  }

  /** Only sent messages travel, only arrived ones were acknowledged, and the receiver is the reference
      receiver of what arrived. */
  ghost predicate Transported(base: int, sent: seq<Message>, net: set<Message>, arrived: Arrived) {
    && (forall m :: m in net ==> InStream(base, sent, m.seqNum, m))
    && (forall n :: n in arrived ==> InStream(base, sent, n, arrived[n]) && arrived[n] in net)
  }

  ghost predicate Answered(arrived: Arrived, acks: set<MessageId>, acked: set<MessageId>) {
    && (forall id :: id in acks <==> exists n :: n in arrived && arrived[n].id == id)
    && acked <= acks
  }

  ghost predicate Inv(s: System) {
    && Numbered(s.base, s.snd.sendSeqNum, s.sent)
    && BufferOk(s.base, s.sent, s.snd.outgoing)
    && HeadOnly(s.snd.outgoing, s.resends, s.sentAt, s.clock)
    && Transmitted(s.sent, s.net, s.transmissions, s.resends)
    && Conserved(s.sent, s.snd.outgoing, s.acked, s.evicted)
    && PendingOk(s.sent, s.snd.pending, s.acked)
    && Estimated(s.start, s.snd.estimator, s.samples, s.resends, s.acked)
    && Transported(s.base, s.sent, s.net, s.arrived)
    && Answered(s.arrived, s.acks, s.acked)
    && DataOnly(s.arrived)
    && Refines(s.rcv, s.base, s.arrived)
  }
}
