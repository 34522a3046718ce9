/** The invariant of Delivery is inductive: it holds initially and every action keeps it. */
module DeliveryInvariant {
  import opened ChannelSpec
  import opened Octets
  import opened ReceiverFacts
  import opened Delivery
  import Rto

  lemma {:induction false} SentAt(sent: seq<Message>, id: MessageId)
    ensures WasSent(sent, id) <==> exists i :: 0 <= i < |sent| && sent[i].id == id
  {
    if sent != [] {
      var before := sent[..|sent| - 1];
      SentAt(before, id);
      if i :| 0 <= i < |sent| && sent[i].id == id {
        if i < |before| { assert before[i].id == id; }
      }
      if i :| 0 <= i < |before| && before[i].id == id { assert sent[i].id == id; }
    }
  }

  lemma {:induction false} BufferedAt(outgoing: seq<StreamingMessage>, id: MessageId)
    ensures Buffered(outgoing, id) <==> exists i :: 0 <= i < |outgoing| && outgoing[i].messageID == id
  {
    if outgoing != [] {
      var before := outgoing[..|outgoing| - 1];
      BufferedAt(before, id);
      if i :| 0 <= i < |outgoing| && outgoing[i].messageID == id {
        if i < |before| { assert before[i].messageID == id; }
      }
      if i :| 0 <= i < |before| && before[i].messageID == id { assert outgoing[i].messageID == id; }
    }
  }

  /** Entries of the buffer carry pairwise different ids. */
  lemma BufferIdsDistinct(base: int, next: int, sent: seq<Message>, outgoing: seq<StreamingMessage>)
    requires Numbered(base, next, sent) && BufferOk(base, sent, outgoing)
    ensures forall i, j :: 0 <= i < j < |outgoing| ==> outgoing[i].messageID != outgoing[j].messageID
  {
    forall i, j | 0 <= i < j < |outgoing| ensures outgoing[i].messageID != outgoing[j].messageID {
      var e, f := outgoing[i], outgoing[j];
      assert EntryOk(base, sent, e) && EntryOk(base, sent, f);
      assert sent[e.sequenceNumber - base].id != sent[f.sequenceNumber - base].id;
    }
  }

  lemma EntryWasSent(base: int, sent: seq<Message>, outgoing: seq<StreamingMessage>, k: nat) returns (i: nat)
    requires BufferOk(base, sent, outgoing) && k < |outgoing|
    ensures i < |sent| && i == outgoing[k].sequenceNumber - base
    ensures sent[i] == outgoing[k].content && sent[i].id == outgoing[k].messageID
    ensures WasSent(sent, outgoing[k].messageID)
  {
    assert EntryOk(base, sent, outgoing[k]);
    i := outgoing[k].sequenceNumber - base;
    SentAt(sent, outgoing[k].messageID);
  }

  lemma SentGrows(sent: seq<Message>, m: Message)
    ensures forall id :: WasSent(sent + [m], id) <==> WasSent(sent, id) || id == m.id
    ensures forall base, n, x :: InStream(base, sent, n, x) ==> InStream(base, sent + [m], n, x)
    ensures !WasSent(sent, m.id) ==> forall i :: 0 <= i < |sent| ==> sent[i].id != m.id
  {
    assert (sent + [m])[..|sent|] == sent;
    SentAt(sent, m.id);
  }

  /* ---------- SendData ---------- */

  lemma SendKeepsBuffer(base: int, next: int, sent: seq<Message>, outgoing: seq<StreamingMessage>,
                        m: Message, now: int)
    requires Numbered(base, next, sent) && BufferOk(base, sent, outgoing)
    requires m == InputMessage(next, m.id, Output, m.payload) && !WasSent(sent, m.id)
    ensures Numbered(base, next + 1, sent + [m])
    ensures BufferOk(base, sent + [m], Enqueue(outgoing, StreamingMessage(m, next, m.id, now, 0)))
  {
    SentGrows(sent, m);
    var outgoing' := Enqueue(outgoing, StreamingMessage(m, next, m.id, now, 0));
    forall i | 0 <= i < |outgoing'| - 1
      ensures EntryOk(base, sent + [m], outgoing'[i]) && outgoing'[i].sequenceNumber < next
    {
      var d := if |outgoing| >= OUTGOING_MESSAGE_BUFFER_CAPACITY then 1 else 0;
      assert outgoing'[i] == outgoing[i + d];
      assert EntryOk(base, sent, outgoing[i + d]);
    }
  }

  lemma SendKeepsHeadOnly(base: int, sent: seq<Message>, outgoing: seq<StreamingMessage>, m: Message,
                          resends: map<MessageId, nat>, sentAt: map<MessageId, int>, clock: int, now: int)
    requires BufferOk(base, sent, outgoing) && HeadOnly(outgoing, resends, sentAt, clock)
    requires !WasSent(sent, m.id) && clock <= now
    ensures HeadOnly(Enqueue(outgoing, StreamingMessage(m, m.seqNum, m.id, now, 0)),
                     resends[m.id := 0], sentAt[m.id := now], now)
  {
    var outgoing' := Enqueue(outgoing, StreamingMessage(m, m.seqNum, m.id, now, 0));
    forall i | 0 <= i < |outgoing'| - 1
      ensures Counted(outgoing'[i], resends[m.id := 0], sentAt[m.id := now], now)
    {
      var d := if |outgoing| >= OUTGOING_MESSAGE_BUFFER_CAPACITY then 1 else 0;
      assert outgoing'[i] == outgoing[i + d];
      var k := EntryWasSent(base, sent, outgoing, i + d);
      assert Counted(outgoing[i + d], resends, sentAt, clock);
    }
  }

  lemma EnqueueBuffered(outgoing: seq<StreamingMessage>, e: StreamingMessage, x: MessageId)
    requires forall i, j :: 0 <= i < j < |outgoing| ==> outgoing[i].messageID != outgoing[j].messageID
    ensures Buffered(Enqueue(outgoing, e), x)
            <==> x == e.messageID
                 || (Buffered(outgoing, x)
                     && !(|outgoing| >= OUTGOING_MESSAGE_BUFFER_CAPACITY && x == outgoing[0].messageID))
  {
    var d := if |outgoing| >= OUTGOING_MESSAGE_BUFFER_CAPACITY then 1 else 0;
    var outgoing' := Enqueue(outgoing, e);
    assert forall i :: 0 <= i < |outgoing'| - 1 ==> outgoing'[i] == outgoing[i + d];
    assert outgoing'[|outgoing'| - 1] == e;
    BufferedAt(outgoing, x);
    BufferedAt(outgoing', x);
    if Buffered(outgoing, x) {
      var k :| 0 <= k < |outgoing| && outgoing[k].messageID == x;
      if k >= d { assert outgoing'[k - d].messageID == x; }
    }
  }

  lemma SendKeepsConserved(base: int, next: int, sent: seq<Message>, outgoing: seq<StreamingMessage>,
                           acked: set<MessageId>, evicted: set<MessageId>, m: Message, e: StreamingMessage)
    requires Numbered(base, next, sent) && BufferOk(base, sent, outgoing)
    requires Conserved(sent, outgoing, acked, evicted)
    requires !WasSent(sent, m.id) && e.messageID == m.id
    ensures var out := if |outgoing| >= OUTGOING_MESSAGE_BUFFER_CAPACITY then {outgoing[0].messageID} else {};
      Conserved(sent + [m], Enqueue(outgoing, e), acked, evicted + out)
  {
    SentGrows(sent, m);
    BufferIdsDistinct(base, next, sent, outgoing);
    if |outgoing| >= OUTGOING_MESSAGE_BUFFER_CAPACITY { var k := EntryWasSent(base, sent, outgoing, 0); }
    forall x { EnqueueBuffered(outgoing, e, x); }
  }

  lemma SendKeepsTransmitted(base: int, next: int, sent: seq<Message>, net: set<Message>, arrived: Arrived,
                             m: Message, transmissions: map<MessageId, nat>, resends: map<MessageId, nat>, ok: bool)
    requires Transmitted(sent, net, transmissions, resends) && Transported(base, sent, net, arrived)
    requires Numbered(base, next, sent) && m.seqNum == next && !WasSent(sent, m.id)
    ensures Transmitted(sent + [m], if ok then net + {m} else net,
                        transmissions[m.id := if ok then 1 else 0], resends[m.id := 0])
  {
    SentGrows(sent, m);
    forall x | x in net ensures x.seqNum < next { assert InStream(base, sent, x.seqNum, x); }
  }

  lemma SendKeepsTransported(base: int, next: int, sent: seq<Message>, net: set<Message>, arrived: Arrived,
                             m: Message, ok: bool)
    requires Transported(base, sent, net, arrived) && next == base + |sent| && m.seqNum == next
    ensures Transported(base, sent + [m], if ok then net + {m} else net, arrived)
  {
    SentGrows(sent, m);
    assert InStream(base, sent + [m], next, m);
  }

  lemma SendKeepsPending(sent: seq<Message>, pending: map<MessageId, PendingMessage>, acked: set<MessageId>,
                         m: Message, now: int)
    requires PendingOk(sent, pending, acked) && !WasSent(sent, m.id) && m.id !in acked
    ensures PendingOk(sent + [m], pending[m.id := PendingMessage(m, now, 1)], acked)
  {
    SentGrows(sent, m);
  }

  lemma SendKeepsSender(s: System, payload: Bytes, id: MessageId, now: int, wsOk: bool)
    requires Inv(s) && !WasSent(s.sent, id) && s.clock <= now
    ensures var t := NextSend(s, payload, id, now, wsOk);
      && Numbered(t.base, t.snd.sendSeqNum, t.sent)
      && BufferOk(t.base, t.sent, t.snd.outgoing)
      && HeadOnly(t.snd.outgoing, t.resends, t.sentAt, t.clock)
      && Conserved(t.sent, t.snd.outgoing, t.acked, t.evicted)
  {
    var m := InputMessage(s.snd.sendSeqNum, id, Output, payload);
    var e := StreamingMessage(m, m.seqNum, m.id, now, 0);
    SendKeepsBuffer(s.base, s.snd.sendSeqNum, s.sent, s.snd.outgoing, m, now);
    SendKeepsHeadOnly(s.base, s.sent, s.snd.outgoing, m, s.resends, s.sentAt, s.clock, now);
    SendKeepsConserved(s.base, s.snd.sendSeqNum, s.sent, s.snd.outgoing, s.acked, s.evicted, m, e);
  }

  lemma SendKeepsInv(s: System, payload: Bytes, id: MessageId, now: int, wsOk: bool)
    requires Inv(s) && !WasSent(s.sent, id) && s.clock <= now
    ensures Inv(NextSend(s, payload, id, now, wsOk))
  {
    var m := InputMessage(s.snd.sendSeqNum, id, Output, payload);
    SendKeepsSender(s, payload, id, now, wsOk);
    SendKeepsTransmitted(s.base, s.snd.sendSeqNum, s.sent, s.net, s.arrived, m, s.transmissions, s.resends, wsOk);
    SendKeepsTransported(s.base, s.snd.sendSeqNum, s.sent, s.net, s.arrived, m, wsOk);
    SendKeepsPending(s.sent, s.snd.pending, s.acked, m, now);
    ResendKeepsEstimated(s.start, s.snd.estimator, s.samples, s.resends, s.acked, id, 0);
  }

  /* ---------- ResendTick ---------- */

  /** The buffer after its front entry went out again. */
  function Bumped(outgoing: seq<StreamingMessage>, now: int): (r: seq<StreamingMessage>)
    requires outgoing != []
    ensures |r| == |outgoing|
    ensures forall i :: 0 < i < |r| ==> r[i] == outgoing[i]
    ensures forall i :: 0 <= i < |r| ==>
              r[i].messageID == outgoing[i].messageID && r[i].content == outgoing[i].content
              && r[i].sequenceNumber == outgoing[i].sequenceNumber
  {
    var e := outgoing[0];
    [e.(resendAttempt := e.resendAttempt + 1, lastSentTime := now)] + outgoing[1..]
  }

  lemma BumpKeepsBuffer(base: int, sent: seq<Message>, outgoing: seq<StreamingMessage>, now: int)
    requires BufferOk(base, sent, outgoing) && outgoing != []
    ensures BufferOk(base, sent, Bumped(outgoing, now))
  {
    forall i | 0 <= i < |outgoing| ensures EntryOk(base, sent, Bumped(outgoing, now)[i]) {
      assert EntryOk(base, sent, outgoing[i]);
    }
  }

  lemma BumpKeepsHeadOnly(outgoing: seq<StreamingMessage>, resends: map<MessageId, nat>,
                          sentAt: map<MessageId, int>, clock: int, now: int)
    requires outgoing != [] && HeadOnly(outgoing, resends, sentAt, clock) && clock <= now
    requires forall i, j :: 0 <= i < j < |outgoing| ==> outgoing[i].messageID != outgoing[j].messageID
    ensures var id := outgoing[0].messageID;
      HeadOnly(Bumped(outgoing, now), resends[id := Count(resends, id) + 1], sentAt, now)
  {
    var id := outgoing[0].messageID;
    forall i | 0 <= i < |outgoing|
      ensures Counted(Bumped(outgoing, now)[i], resends[id := Count(resends, id) + 1], sentAt, now)
    {
      assert Counted(outgoing[i], resends, sentAt, clock);
    }
  }

  lemma BumpKeepsConserved(sent: seq<Message>, outgoing: seq<StreamingMessage>, acked: set<MessageId>,
                           evicted: set<MessageId>, now: int)
    requires Conserved(sent, outgoing, acked, evicted) && outgoing != []
    ensures Conserved(sent, Bumped(outgoing, now), acked, evicted)
  {
    var outgoing' := Bumped(outgoing, now);
    SameIds(outgoing, outgoing');
  }

  lemma {:induction false} SameIds(o: seq<StreamingMessage>, o': seq<StreamingMessage>)
    requires |o| == |o'| && forall i :: 0 <= i < |o| ==> o[i].messageID == o'[i].messageID
    ensures BufferIds(o) == BufferIds(o')
  {
    if o != [] { SameIds(o[..|o| - 1], o'[..|o| - 1]); }
  }

  lemma ResendKeepsTransmitted(base: int, next: int, sent: seq<Message>, net: set<Message>, arrived: Arrived,
                               m: Message, transmissions: map<MessageId, nat>, resends: map<MessageId, nat>)
    requires Transmitted(sent, net, transmissions, resends) && Transported(base, sent, net, arrived)
    requires Numbered(base, next, sent) && InStream(base, sent, m.seqNum, m)
    requires Count(resends, m.id) < RESEND_MAX_ATTEMPT
    ensures Transmitted(sent, net + {m}, transmissions[m.id := Count(transmissions, m.id) + 1],
                        resends[m.id := Count(resends, m.id) + 1])
    ensures Transported(base, sent, net + {m}, arrived)
  {
    assert forall i :: 0 <= i < |sent| && sent[i] != m ==> sent[i].id != m.id;
  }

  lemma ResendKeepsEstimated(start: Rto.Settled, e: Rto.Estimator, samples: seq<Sample>, resends: map<MessageId, nat>,
                             acked: set<MessageId>, id: MessageId, n: nat)
    requires Estimated(start, e, samples, resends, acked) && id !in acked
    ensures Estimated(start, e, samples, resends[id := n], acked)
  {}

  lemma ClockKeepsHeadOnly(outgoing: seq<StreamingMessage>, resends: map<MessageId, nat>,
                           sentAt: map<MessageId, int>, clock: int, now: int)
    requires HeadOnly(outgoing, resends, sentAt, clock) && clock <= now
    ensures HeadOnly(outgoing, resends, sentAt, now)
  {
    forall i | 0 <= i < |outgoing| ensures Counted(outgoing[i], resends, sentAt, now) {
      assert Counted(outgoing[i], resends, sentAt, clock);
    }
  }

  /** The front entry: a sent message, unacknowledged, with its true count. */
  lemma FrontEntry(base: int, next: int, sent: seq<Message>, outgoing: seq<StreamingMessage>, acked: set<MessageId>,
                   evicted: set<MessageId>, resends: map<MessageId, nat>, sentAt: map<MessageId, int>, clock: int)
    requires Numbered(base, next, sent) && BufferOk(base, sent, outgoing) && HeadOnly(outgoing, resends, sentAt, clock)
    requires Conserved(sent, outgoing, acked, evicted) && outgoing != []
    ensures var m := outgoing[0].content;
      && InStream(base, sent, m.seqNum, m)
      && m.id == outgoing[0].messageID && m.id !in acked
      && Count(resends, m.id) == outgoing[0].resendAttempt
  {
    var k := EntryWasSent(base, sent, outgoing, 0);
    BufferedAt(outgoing, sent[k].id);
    assert Counted(outgoing[0], resends, sentAt, clock);
  }

  lemma ResendKeepsSender(base: int, next: int, sent: seq<Message>, outgoing: seq<StreamingMessage>,
                          acked: set<MessageId>, evicted: set<MessageId>, resends: map<MessageId, nat>,
                          sentAt: map<MessageId, int>, clock: int, now: int)
    requires Numbered(base, next, sent) && BufferOk(base, sent, outgoing)
    requires HeadOnly(outgoing, resends, sentAt, clock) && Conserved(sent, outgoing, acked, evicted)
    requires outgoing != [] && clock <= now
    ensures BufferOk(base, sent, Bumped(outgoing, now))
    ensures var id := outgoing[0].content.id;
      HeadOnly(Bumped(outgoing, now), resends[id := Count(resends, id) + 1], sentAt, now)
    ensures Conserved(sent, Bumped(outgoing, now), acked, evicted)
  {
    BufferIdsDistinct(base, next, sent, outgoing);
    var k := EntryWasSent(base, sent, outgoing, 0);
    BumpKeepsBuffer(base, sent, outgoing, now);
    BumpKeepsHeadOnly(outgoing, resends, sentAt, clock, now);
    BumpKeepsConserved(sent, outgoing, acked, evicted, now);
  }

  /** The two things a tick can do, without the decision between them. */
  function QuietTick(s: System, now: int): System {
    s.(clock := now)
  }

  function ResendingTick(s: System, now: int): System
    requires s.snd.outgoing != []
  {
    var m := s.snd.outgoing[0].content;
    s.(snd := s.snd.(outgoing := Bumped(s.snd.outgoing, now)),
       clock := now,
       net := s.net + {m},
       transmissions := s.transmissions[m.id := Count(s.transmissions, m.id) + 1],
       resends := s.resends[m.id := Count(s.resends, m.id) + 1])
  }

  lemma TickIsEither(s: System, now: int, wsOk: bool)
    ensures NextTick(s, now, wsOk)
            == if TickOutcome(s.snd, now, wsOk).Resent? then ResendingTick(s, now) else QuietTick(s, now)
  {}

  lemma ResendingTickKeepsSender(s: System, now: int)
    requires Inv(s) && s.clock <= now && s.snd.outgoing != []
    ensures var t := ResendingTick(s, now);
      && BufferOk(t.base, t.sent, t.snd.outgoing)
      && HeadOnly(t.snd.outgoing, t.resends, t.sentAt, t.clock)
      && Conserved(t.sent, t.snd.outgoing, t.acked, t.evicted)
  {
    ResendKeepsSender(s.base, s.snd.sendSeqNum, s.sent, s.snd.outgoing, s.acked, s.evicted, s.resends, s.sentAt,
                      s.clock, now);
  }

  lemma FrontIsUnderWay(s: System)
    requires Inv(s) && s.snd.outgoing != []
    ensures var m := s.snd.outgoing[0].content;
      && InStream(s.base, s.sent, m.seqNum, m) && m.id !in s.acked
      && Count(s.resends, m.id) == s.snd.outgoing[0].resendAttempt
  {
    FrontEntry(s.base, s.snd.sendSeqNum, s.sent, s.snd.outgoing, s.acked, s.evicted, s.resends, s.sentAt, s.clock);
  }

  lemma ResendingTickKeepsHistory(s: System, now: int)
    requires s.snd.outgoing != []
    requires Numbered(s.base, s.snd.sendSeqNum, s.sent) && Transported(s.base, s.sent, s.net, s.arrived)
    requires Transmitted(s.sent, s.net, s.transmissions, s.resends)
    requires Estimated(s.start, s.snd.estimator, s.samples, s.resends, s.acked)
    requires var m := s.snd.outgoing[0].content;
      InStream(s.base, s.sent, m.seqNum, m) && m.id !in s.acked && Count(s.resends, m.id) < RESEND_MAX_ATTEMPT
    ensures var t := ResendingTick(s, now);
      && Transmitted(t.sent, t.net, t.transmissions, t.resends)
      && Transported(t.base, t.sent, t.net, t.arrived)
      && Estimated(t.start, t.snd.estimator, t.samples, t.resends, t.acked)
  {
    var m := s.snd.outgoing[0].content;
    ResendKeepsTransmitted(s.base, s.snd.sendSeqNum, s.sent, s.net, s.arrived, m, s.transmissions, s.resends);
    ResendKeepsEstimated(s.start, s.snd.estimator, s.samples, s.resends, s.acked, m.id, Count(s.resends, m.id) + 1);
  }

  lemma ResendingTickKeepsInv(s: System, now: int)
    requires Inv(s) && s.clock <= now
    requires s.snd.outgoing != [] && s.snd.outgoing[0].resendAttempt < RESEND_MAX_ATTEMPT
    ensures Inv(ResendingTick(s, now))
  {
    FrontIsUnderWay(s);
    ResendingTickKeepsSender(s, now);
    ResendingTickKeepsHistory(s, now);
  }

  lemma QuietTickKeepsInv(s: System, now: int)
    requires Inv(s) && s.clock <= now
    ensures Inv(QuietTick(s, now))
  {
    ClockKeepsHeadOnly(s.snd.outgoing, s.resends, s.sentAt, s.clock, now);
  }

  lemma TickKeepsInv(s: System, now: int, wsOk: bool)
    requires Inv(s) && s.clock <= now
    ensures Inv(NextTick(s, now, wsOk))
  {
    TickIsEither(s, now, wsOk);
    if TickOutcome(s.snd, now, wsOk).Resent? {
      ResendingTickKeepsInv(s, now);
    } else {
      QuietTickKeepsInv(s, now);
    }
  }

  /* ---------- MessageArrives ---------- */

  lemma ArrivalKeepsInv(s: System, m: Message, ackOk: bool)
    requires Inv(s) && m in s.net
    ensures Inv(NextArrival(s, m, ackOk))
  {
    if ackOk {
      assert InStream(s.base, s.sent, m.seqNum, m);
      AcceptRefines(s.rcv, s.base, s.arrived, m);
      ArrivalKeepsAnswered(s.base, s.sent, s.net, s.arrived, s.acks, s.acked, m);
    }
  }

  lemma ArrivalKeepsAnswered(base: int, sent: seq<Message>, net: set<Message>, arrived: Arrived,
                             acks: set<MessageId>, acked: set<MessageId>, m: Message)
    requires Transported(base, sent, net, arrived) && Answered(arrived, acks, acked) && m in net
    ensures Agrees(arrived, m) || !m.ptype.Output?
    ensures Answered(Arrive(arrived, base, m), acks + {m.id}, acked)
    ensures Transported(base, sent, net, Arrive(arrived, base, m))
  {
    assert InStream(base, sent, m.seqNum, m);
    var arrived' := Arrive(arrived, base, m);
    assert arrived'[m.seqNum].id == m.id;
    forall id ensures id in acks + {m.id} <==> exists n :: n in arrived' && arrived'[n].id == id {
      if id in acks {
        var n :| n in arrived && arrived[n].id == id;
        assert InStream(base, sent, n, arrived[n]);
        assert n in arrived' && arrived'[n].id == id;
      }
      if exists n :: n in arrived' && arrived'[n].id == id {
        var n :| n in arrived' && arrived'[n].id == id;
        if n != m.seqNum { assert n in arrived && arrived[n].id == id; }
      }
    }
  }

  /* ---------- AckArrives ---------- */

  function Without(outgoing: seq<StreamingMessage>, k: nat): (r: seq<StreamingMessage>)
    requires k < |outgoing|
    ensures |r| == |outgoing| - 1
    ensures forall i :: 0 <= i < |r| ==> r[i] == outgoing[if i < k then i else i + 1]
  {
    outgoing[..k] + outgoing[k + 1..]
  }

  lemma RemoveKeepsBuffer(base: int, sent: seq<Message>, outgoing: seq<StreamingMessage>, k: nat)
    requires BufferOk(base, sent, outgoing) && k < |outgoing|
    ensures BufferOk(base, sent, Without(outgoing, k))
  {}

  lemma RemoveKeepsHeadOnly(outgoing: seq<StreamingMessage>, resends: map<MessageId, nat>,
                            sentAt: map<MessageId, int>, clock: int, now: int, k: nat)
    requires HeadOnly(outgoing, resends, sentAt, clock) && clock <= now && k < |outgoing|
    ensures HeadOnly(Without(outgoing, k), resends, sentAt, now)
  {
    forall i | 0 <= i < |outgoing| ensures Counted(outgoing[i], resends, sentAt, now) {
      assert Counted(outgoing[i], resends, sentAt, clock);
    }
  }

  lemma WithoutBuffered(outgoing: seq<StreamingMessage>, k: nat, x: MessageId)
    requires k < |outgoing|
    requires forall i, j :: 0 <= i < j < |outgoing| ==> outgoing[i].messageID != outgoing[j].messageID
    ensures Buffered(Without(outgoing, k), x) <==> Buffered(outgoing, x) && x != outgoing[k].messageID
  {
    var outgoing' := Without(outgoing, k);
    BufferedAt(outgoing, x);
    BufferedAt(outgoing', x);
    if Buffered(outgoing, x) && x != outgoing[k].messageID {
      var i :| 0 <= i < |outgoing| && outgoing[i].messageID == x;
      assert outgoing'[if i < k then i else i - 1].messageID == x;
    }
    if Buffered(outgoing', x) {
      var i :| 0 <= i < |outgoing'| && outgoing'[i].messageID == x;
      assert outgoing[if i < k then i else i + 1].messageID == x;
    }
  }

  lemma AckKeepsConserved(base: int, next: int, sent: seq<Message>, outgoing: seq<StreamingMessage>,
                          acked: set<MessageId>, evicted: set<MessageId>, id: MessageId)
    requires Numbered(base, next, sent) && BufferOk(base, sent, outgoing) && WasSent(sent, id)
    requires Conserved(sent, outgoing, acked, evicted)
    ensures var k := IndexOf(outgoing, id);
      Conserved(sent, if k < |outgoing| then Without(outgoing, k) else outgoing, acked + {id}, evicted)
  {
    BufferIdsDistinct(base, next, sent, outgoing);
    var k := IndexOf(outgoing, id);
    if k < |outgoing| {
      forall x { WithoutBuffered(outgoing, k, x); }
    } else {
      BufferedAt(outgoing, id);
    }
  }

  lemma MeasurableIsBuffered(s: System, id: MessageId)
    requires Inv(s) && WasSent(s.sent, id)
    ensures var k := IndexOf(s.snd.outgoing, id);
      && (Measurable(s, id) <==> k < |s.snd.outgoing| && s.snd.outgoing[k].resendAttempt == 0)
      && (Measurable(s, id) ==> s.sentAt[id] == s.snd.outgoing[k].lastSentTime <= s.clock)
  {
    var k := IndexOf(s.snd.outgoing, id);
    SentAt(s.sent, id);
    BufferedAt(s.snd.outgoing, id);
    var i :| 0 <= i < |s.sent| && s.sent[i].id == id;
    if k < |s.snd.outgoing| {
      assert Buffered(s.snd.outgoing, s.sent[i].id);
      assert Counted(s.snd.outgoing[k], s.resends, s.sentAt, s.clock);
    } else {
      assert !Buffered(s.snd.outgoing, s.sent[i].id);
    }
  }

  lemma MillisGrows(samples: seq<Sample>, x: Sample)
    ensures Millis(samples + [x]) == Millis(samples) + [x.millis as real]
  {
    assert (samples + [x])[..|samples|] == samples;
  }

  /** A non-negative measurement keeps RTT non-negative and the timeout in its bounds. */
  lemma MeasureKeepsBounds(e: Rto.Estimator, millis: real)
    requires 0.0 <= e.rtt && 0.0 <= millis
    ensures 0.0 <= Rto.Update(e, millis).rtt && Rto.TimeoutInBounds(Rto.Update(e, millis))
  {
    var f := Rto.Update(e, millis);
    Rto.TimeoutBounds(f.rtt, f.rttvar);
  }

  lemma SampleKeepsEstimated(start: Rto.Settled, e: Rto.Estimator, samples: seq<Sample>, resends: map<MessageId, nat>,
                             acked: set<MessageId>, id: MessageId, millis: int)
    requires Estimated(start, e, samples, resends, acked)
    requires id !in acked && id in resends && resends[id] == 0 && 0 <= millis
    ensures Estimated(start, Rto.Update(e, millis as real), samples + [Sample(id, millis)], resends, acked + {id})
  {
    MillisGrows(samples, Sample(id, millis));
    Rto.UpdateAllLast(start, Millis(samples), millis as real);
    MeasureKeepsBounds(e, millis as real);
  }

  lemma AckWasSent(s: System, id: MessageId)
    requires Inv(s) && id in s.acks
    ensures WasSent(s.sent, id)
  {
    var n :| n in s.arrived && s.arrived[n].id == id;
    assert InStream(s.base, s.sent, n, s.arrived[n]);
    SentAt(s.sent, id);
  }

  lemma AckKeepsPending(sent: seq<Message>, pending: map<MessageId, PendingMessage>, acked: set<MessageId>,
                        id: MessageId)
    requires PendingOk(sent, pending, acked)
    ensures PendingOk(sent, pending - {id}, acked + {id})
  {}

  lemma AckKeepsSender(s: System, id: MessageId, now: int)
    requires Inv(s) && id in s.acks && s.clock <= now
    ensures var outgoing := Acked(s.snd, id, now).outgoing;
      && BufferOk(s.base, s.sent, outgoing)
      && HeadOnly(outgoing, s.resends, s.sentAt, now)
      && Conserved(s.sent, outgoing, s.acked + {id}, s.evicted)
  {
    AckWasSent(s, id);
    AckKeepsConserved(s.base, s.snd.sendSeqNum, s.sent, s.snd.outgoing, s.acked, s.evicted, id);
    var k := IndexOf(s.snd.outgoing, id);
    if k < |s.snd.outgoing| {
      RemoveKeepsBuffer(s.base, s.sent, s.snd.outgoing, k);
      RemoveKeepsHeadOnly(s.snd.outgoing, s.resends, s.sentAt, s.clock, now, k);
    } else {
      ClockKeepsHeadOnly(s.snd.outgoing, s.resends, s.sentAt, s.clock, now);
    }
  }

  /** Whether the acknowledged message can be measured, and then since when it has been under way. */
  lemma WhatIsMeasured(s: System, id: MessageId, now: int)
    requires Inv(s) && id in s.acks && s.clock <= now
    ensures var k := IndexOf(s.snd.outgoing, id);
      && (Measurable(s, id) <==> k < |s.snd.outgoing| && s.snd.outgoing[k].resendAttempt == 0)
      && (Measurable(s, id) ==>
            && s.sentAt[id] == s.snd.outgoing[k].lastSentTime <= now
            && id !in s.acked && id in s.resends && s.resends[id] == 0)
  {
    AckWasSent(s, id);
    MeasurableIsBuffered(s, id);
    var k := IndexOf(s.snd.outgoing, id);
    if k < |s.snd.outgoing| {
      assert Counted(s.snd.outgoing[k], s.resends, s.sentAt, s.clock);
    }
  }

  lemma AckedEstimator(snd: Sender, id: MessageId, now: int)
    ensures var k := IndexOf(snd.outgoing, id);
      Acked(snd, id, now).estimator
      == if k < |snd.outgoing| && snd.outgoing[k].resendAttempt == 0
         then Rto.Update(snd.estimator, Rto.MillisBetween(snd.outgoing[k].lastSentTime, now) as real)
         else snd.estimator
  {}

  lemma MoreAcked(start: Rto.Settled, e: Rto.Estimator, samples: seq<Sample>, resends: map<MessageId, nat>,
                  acked: set<MessageId>, id: MessageId)
    requires Estimated(start, e, samples, resends, acked)
    ensures Estimated(start, e, samples, resends, acked + {id})
  {}

  lemma AckKeepsEstimated(s: System, id: MessageId, now: int)
    requires Inv(s) && id in s.acks && s.clock <= now
    ensures var t := NextAck(s, id, now); Estimated(t.start, t.snd.estimator, t.samples, t.resends, t.acked)
  {
    WhatIsMeasured(s, id, now);
    AckedEstimator(s.snd, id, now);
    if Measurable(s, id) {
      SampleKeepsEstimated(s.start, s.snd.estimator, s.samples, s.resends, s.acked, id,
                           Rto.MillisBetween(s.sentAt[id], now));
    } else {
      MoreAcked(s.start, s.snd.estimator, s.samples, s.resends, s.acked, id);
    }
  }

  lemma AckKeepsInv(s: System, id: MessageId, now: int)
    requires Inv(s) && id in s.acks && s.clock <= now
    ensures Inv(NextAck(s, id, now))
  {
    AckKeepsSender(s, id, now);
    AckKeepsPending(s.sent, s.snd.pending, s.acked, id);
    AckKeepsEstimated(s, id, now);
  }

  /* ---------- every run ---------- */

  lemma NextKeepsInv(s: System, a: Action)
    requires Inv(s) && Enabled(s, a)
    ensures Inv(Next(s, a))
  {
    match a
    case SendData(payload, id, now, wsOk) => SendKeepsInv(s, payload, id, now, wsOk);
    case ResendTick(now, wsOk) => TickKeepsInv(s, now, wsOk);
    case MessageArrives(m, ackOk) => ArrivalKeepsInv(s, m, ackOk);
    case AckArrives(id, now) => AckKeepsInv(s, id, now);
  }

  lemma {:induction false} RunKeepsStart(s: System, run: seq<Action>)
    requires Legal(s, run)
    ensures After(s, run).start == s.start && After(s, run).base == s.base
    decreases |run|
  {
    if run != [] { RunKeepsStart(Next(s, run[0]), run[1..]); }
  }

  lemma {:induction false} RunKeepsInv(s: System, run: seq<Action>)
    requires Inv(s) && Legal(s, run)
    ensures Inv(After(s, run))
    decreases |run|
  {
    if run != [] {
      NextKeepsInv(s, run[0]);
      RunKeepsInv(Next(s, run[0]), run[1..]);
    }
  }

  lemma EveryRunKeepsInv(base: int, clock: int, start: Rto.Settled, run: seq<Action>)
    requires Legal(Init(base, clock, start), run)
    ensures Inv(After(Init(base, clock, start), run))
  {
    RunKeepsInv(Init(base, clock, start), run);
  }
}
