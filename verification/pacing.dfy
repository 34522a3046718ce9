/** When a message is resent: never before the retransmission timeout, so never more often than every ten
    milliseconds. */
module Pacing {
  import opened ChannelSpec
  import opened Octets
  import opened Delivery
  import opened DeliveryInvariant
  import Rto

  /** A tick resends exactly if the front entry was last sent longer ago than the timeout, has attempts left, and
      the websocket takes it. */
  lemma ResendIff(s: System, now: int, wsOk: bool)
    ensures NextTick(s, now, wsOk).resends != s.resends
            <==> && s.snd.outgoing != [] && wsOk
                 && now > s.snd.outgoing[0].lastSentTime + s.snd.estimator.rto
                 && s.snd.outgoing[0].resendAttempt < 3000
  {
    var tick := TickOutcome(s.snd, now, wsOk);
    if tick.Resent? {
      var id := tick.content.id;
      assert NextTick(s, now, wsOk).resends[id] == Count(s.resends, id) + 1;
    }
  }

  /** That many resends of a message fit between two moments. */
  predicate Spaced(resends: nat, from: int, to: int) {
    resends * 10_000_000 <= to - from
  }

  ghost predicate EntrySpaced(e: StreamingMessage, sentAt: map<MessageId, int>) {
    e.messageID in sentAt && Spaced(e.resendAttempt, sentAt[e.messageID], e.lastSentTime)
  }

  ghost predicate EntriesSpaced(outgoing: seq<StreamingMessage>, sentAt: map<MessageId, int>) {
    forall e <- outgoing :: EntrySpaced(e, sentAt)
  }

  ghost predicate AllSpaced(resends: map<MessageId, nat>, sentAt: map<MessageId, int>, clock: int) {
    forall id :: id in resends ==> id in sentAt && Spaced(resends[id], sentAt[id], clock)
  }

  ghost predicate Paced(s: System) {
    EntriesSpaced(s.snd.outgoing, s.sentAt) && AllSpaced(s.resends, s.sentAt, s.clock)
  }

  lemma LaterSpaced(resends: map<MessageId, nat>, sentAt: map<MessageId, int>, clock: int, now: int)
    requires AllSpaced(resends, sentAt, clock) && clock <= now
    ensures AllSpaced(resends, sentAt, now)
  {}

  lemma SendPaced(s: System, payload: Bytes, id: MessageId, now: int, wsOk: bool)
    requires Paced(s) && s.clock <= now && forall e <- s.snd.outgoing :: e.messageID != id
    ensures Paced(NextSend(s, payload, id, now, wsOk))
  {
    LaterSpaced(s.resends, s.sentAt, s.clock, now);
    var s' := NextSend(s, payload, id, now, wsOk);
    forall e | e in s'.snd.outgoing ensures EntrySpaced(e, s'.sentAt) {
      if e in s.snd.outgoing { assert EntrySpaced(e, s.sentAt); }
    }
  }

  lemma TickPaced(s: System, now: int, wsOk: bool)
    requires Paced(s) && s.clock <= now && 10_000_000 <= s.snd.estimator.rto
    requires TickOutcome(s.snd, now, wsOk).Resent? ==>
               var e := s.snd.outgoing[0];
               e.content.id == e.messageID && Count(s.resends, e.messageID) == e.resendAttempt
    ensures Paced(NextTick(s, now, wsOk))
  {
    LaterSpaced(s.resends, s.sentAt, s.clock, now);
    var s' := NextTick(s, now, wsOk);
    if TickOutcome(s.snd, now, wsOk).Resent? {
      var e := s.snd.outgoing[0];
      assert EntrySpaced(e, s.sentAt);
      assert Spaced(e.resendAttempt + 1, s.sentAt[e.messageID], now);
      forall x | x in s'.snd.outgoing ensures EntrySpaced(x, s'.sentAt) {
        if x in s.snd.outgoing { assert EntrySpaced(x, s.sentAt); }
      }
    }
  }

  lemma AckPaced(s: System, id: MessageId, now: int)
    requires Paced(s) && s.clock <= now
    ensures Paced(NextAck(s, id, now))
  {
    LaterSpaced(s.resends, s.sentAt, s.clock, now);
    var s' := NextAck(s, id, now);
    forall e | e in s'.snd.outgoing ensures EntrySpaced(e, s'.sentAt) { assert e in s.snd.outgoing; }
  }

  /** What the invariant says of the entries. */
  lemma EntriesAreSent(s: System)
    requires Inv(s)
    ensures forall e <- s.snd.outgoing :: WasSent(s.sent, e.messageID)
    ensures s.snd.outgoing != [] ==>
              var e := s.snd.outgoing[0];
              e.content.id == e.messageID && Count(s.resends, e.messageID) == e.resendAttempt
    ensures 10_000_000 <= s.snd.estimator.rto
  {
    forall e | e in s.snd.outgoing ensures WasSent(s.sent, e.messageID) {
      var k :| 0 <= k < |s.snd.outgoing| && s.snd.outgoing[k] == e;
      var i := EntryWasSent(s.base, s.sent, s.snd.outgoing, k);
      SentAt(s.sent, e.messageID);
    }
    if s.snd.outgoing != [] {
      assert EntryOk(s.base, s.sent, s.snd.outgoing[0]);
      assert Counted(s.snd.outgoing[0], s.resends, s.sentAt, s.clock);
    }
  }

  lemma NextPaced(s: System, a: Action)
    requires Inv(s) && Paced(s) && Enabled(s, a)
    ensures Paced(Next(s, a))
  {
    EntriesAreSent(s);
    match a
    case SendData(payload, id, now, wsOk) => SendPaced(s, payload, id, now, wsOk);
    case ResendTick(now, wsOk) => TickPaced(s, now, wsOk);
    case AckArrives(id, now) => AckPaced(s, id, now);
    case MessageArrives(m, ackOk) =>
  }

  lemma {:induction false} RunPaced(s: System, run: seq<Action>)
    requires Inv(s) && Paced(s) && Legal(s, run)
    ensures Paced(After(s, run))
    decreases |run|
  {
    if run != [] {
      NextPaced(s, run[0]);
      NextKeepsInv(s, run[0]);
      RunPaced(Next(s, run[0]), run[1..]);
    }
  }

  /** After every run, each message was resent at most once for every ten milliseconds since it was sent. */
  lemma ResendsArePaced(base: int, clock: int, start: Rto.Settled, run: seq<Action>, id: MessageId)
    requires Legal(Init(base, clock, start), run) && id in After(Init(base, clock, start), run).resends
    ensures var s := After(Init(base, clock, start), run);
      id in s.sentAt && s.resends[id] * 10_000_000 <= s.clock - s.sentAt[id]
  {
    EveryRunKeepsInv(base, clock, start, []);
    RunPaced(Init(base, clock, start), run);
    assert Spaced(After(Init(base, clock, start), run).resends[id],
                  After(Init(base, clock, start), run).sentAt[id], After(Init(base, clock, start), run).clock);
  }
}
