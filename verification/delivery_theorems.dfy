/** What holds after every run of a sender half, a lossy, duplicating, reordering network, and a
    receiver half. */
module DeliveryTheorems {
  import opened ChannelSpec
  import opened Octets
  import opened ReceiverFacts
  import opened Delivery
  import opened DeliveryInvariant
  import Rto

  /* ---------- end-to-end safety ---------- */

  /** The payloads a run hands to SendInputData, in order. */
  function Given(run: seq<Action>): seq<Bytes> {
    if run == [] then []
    else (if run[0].SendData? then [run[0].payload] else []) + Given(run[1..])
  }

  function Payloads(ms: seq<Message>): (r: seq<Bytes>)
    ensures |r| == |ms| && forall i :: 0 <= i < |r| ==> r[i] == ms[i].payload
  {
    if ms == [] then [] else Payloads(ms[..|ms| - 1]) + [ms[|ms| - 1].payload]
  }

  lemma PayloadsLast(ms: seq<Message>, m: Message)
    ensures Payloads(ms + [m]) == Payloads(ms) + [m.payload]
  {
    assert (ms + [m])[..|ms|] == ms;
  }

  lemma NextSent(s: System, a: Action)
    requires Enabled(s, a)
    ensures Payloads(Next(s, a).sent) == Payloads(s.sent) + if a.SendData? then [a.payload] else []
  {
    if a.SendData? {
      PayloadsLast(s.sent, InputMessage(s.snd.sendSeqNum, a.id, Output, a.payload));
    } else {
      assert Next(s, a).sent == s.sent;
    }
  }

  lemma {:induction false} SentIsGiven(s: System, run: seq<Action>)
    requires Legal(s, run)
    ensures Payloads(After(s, run).sent) == Payloads(s.sent) + Given(run)
    decreases |run|
  {
    if run != [] {
      NextSent(s, run[0]);
      SentIsGiven(Next(s, run[0]), run[1..]);
    }
  }

  lemma SentFromTheStart(base: int, clock: int, start: Rto.Settled, run: seq<Action>)
    requires Legal(Init(base, clock, start), run)
    ensures Payloads(After(Init(base, clock, start), run).sent) == Given(run)
  {
    SentFromNothing(Init(base, clock, start), run);
  }

  lemma SentFromNothing(s: System, run: seq<Action>)
    requires Legal(s, run) && s.sent == []
    ensures Payloads(After(s, run).sent) == Given(run)
  {
    SentIsGiven(s, run);
    NothingBefore(Payloads(s.sent), Given(run));
  }

  lemma NothingBefore(none: seq<Bytes>, some: seq<Bytes>)
    requires none == []
    ensures none + some == some
  {}

  /** Delivery is safe: after any run, what was delivered is exactly a prefix of what was given to
      SendInputData, in order and without repeats. */
  lemma DeliveredIsPrefix(base: int, clock: int, start: Rto.Settled, run: seq<Action>)
    requires Legal(Init(base, clock, start), run)
    ensures After(Init(base, clock, start), run).rcv.output <= Given(run)
  {
    var s := After(Init(base, clock, start), run);
    EveryRunKeepsInv(base, clock, start, run);
    SentFromTheStart(base, clock, start, run);
    OutputIsPrefix(s);
  }

  lemma OutputIsPrefix(s: System)
    requires Inv(s)
    ensures s.rcv.output <= Payloads(s.sent)
    ensures s.rcv.expected == s.base + |s.rcv.output|
  {
    OutputMatches(s.base, s.sent, s.net, s.arrived, s.rcv);
  }

  lemma OutputMatches(base: int, sent: seq<Message>, net: set<Message>, arrived: Arrived, rcv: Receiver)
    requires Transported(base, sent, net, arrived) && Refines(rcv, base, arrived)
    ensures rcv.output <= Payloads(sent) && rcv.expected == base + |rcv.output|
  {
    if rcv.output != [] {
      assert InStream(base, sent, rcv.expected - 1, arrived[rcv.expected - 1]);
    }
    forall i | 0 <= i < |rcv.output| ensures rcv.output[i] == Payloads(sent)[i] {
      assert InStream(base, sent, base + i, arrived[base + i]);
    }
  }

  /** Nothing acknowledged is ever lost: after any run, every acknowledged message has been delivered, at
      its own place in the output, or is held by the receiver. */
  lemma AcknowledgedIsKept(base: int, clock: int, start: Rto.Settled, run: seq<Action>, id: MessageId)
    requires Legal(Init(base, clock, start), run) && id in After(Init(base, clock, start), run).acks
    ensures var s := After(Init(base, clock, start), run); exists i: nat :: Kept(s, i) && s.sent[i].id == id
  {
    EveryRunKeepsInv(base, clock, start, run);
    var i := WhereKept(After(Init(base, clock, start), run), id);
  }

  /** Message i has been delivered at its own place, or is in the receiver's buffer. */
  ghost predicate Kept(s: System, i: nat) {
    && i < |s.sent|
    && if i < |s.rcv.output| then s.rcv.output[i] == s.sent[i].payload
       else s.base + i in s.rcv.incoming && s.rcv.incoming[s.base + i] == s.sent[i]
  }

  lemma ArrivedIsHeld(r: Receiver, base: int, arrived: Arrived, n: int)
    requires Refines(r, base, arrived) && n in arrived && base <= n
    ensures if n - base < |r.output| then r.output[n - base] == arrived[n].payload
            else n in r.incoming && r.incoming[n] == arrived[n]
  {
    if n - base < |r.output| {
      assert r.output[n - base] == arrived[base + (n - base)].payload;
    }
  }

  lemma WhereKept(s: System, id: MessageId) returns (i: nat)
    requires Transported(s.base, s.sent, s.net, s.arrived) && Answered(s.arrived, s.acks, s.acked)
    requires Refines(s.rcv, s.base, s.arrived) && id in s.acks
    ensures Kept(s, i) && s.sent[i].id == id
  {
    var n :| n in s.arrived && s.arrived[n].id == id;
    assert InStream(s.base, s.sent, n, s.arrived[n]);
    i := n - s.base;
    ArrivedIsHeld(s.rcv, s.base, s.arrived, n);
  }

  /* ---------- conservation at the sender ---------- */

  lemma {:induction false} SentIdsCount(sent: seq<Message>)
    requires forall i, j :: 0 <= i < j < |sent| ==> sent[i].id != sent[j].id
    ensures |SentIds(sent)| == |sent|
  {
    if sent != [] {
      var before := sent[..|sent| - 1];
      SentIdsCount(before);
      SentAt(before, sent[|sent| - 1].id);
    }
  }

  lemma {:induction false} BufferIdsCount(outgoing: seq<StreamingMessage>)
    requires forall i, j :: 0 <= i < j < |outgoing| ==> outgoing[i].messageID != outgoing[j].messageID
    ensures |BufferIds(outgoing)| == |outgoing|
  {
    if outgoing != [] {
      var before := outgoing[..|outgoing| - 1];
      BufferIdsCount(before);
      BufferedAt(before, outgoing[|outgoing| - 1].messageID);
    }
  }

  lemma BufferIdsWereSent(base: int, sent: seq<Message>, outgoing: seq<StreamingMessage>)
    requires BufferOk(base, sent, outgoing)
    ensures BufferIds(outgoing) <= SentIds(sent)
  {
    forall id | id in BufferIds(outgoing) ensures id in SentIds(sent) {
      BufferedAt(outgoing, id);
      var i :| 0 <= i < |outgoing| && outgoing[i].messageID == id;
      var k := EntryWasSent(base, sent, outgoing, i);
    }
  }

  /** The sets of Conserved, as a three-way split. */
  lemma Split(base: int, sent: seq<Message>, outgoing: seq<StreamingMessage>, acked: set<MessageId>,
              evicted: set<MessageId>)
    requires BufferOk(base, sent, outgoing) && Conserved(sent, outgoing, acked, evicted)
    ensures SentIds(sent) == acked + BufferIds(outgoing) + (evicted - acked)
    ensures BufferIds(outgoing) !! acked && BufferIds(outgoing) !! evicted
  {
    BufferIdsWereSent(base, sent, outgoing);
    forall id | id in SentIds(sent)
      ensures id in BufferIds(outgoing) <==> id !in acked && id !in evicted
    {
      SentAt(sent, id);
      var i :| 0 <= i < |sent| && sent[i].id == id;
      assert Buffered(outgoing, sent[i].id) <==> sent[i].id !in acked && sent[i].id !in evicted;
    }
  }

  /** The sent messages split, without overlap, into acknowledged, buffered, and evicted by overflow and
      never acknowledged; pendingMessages is the unacknowledged part; and the counts add up. */
  ghost predicate Balanced(sent: seq<Message>, outgoing: seq<StreamingMessage>,
                           pending: map<MessageId, PendingMessage>, acked: set<MessageId>, evicted: set<MessageId>)
  {
    var buffered, lost := BufferIds(outgoing), evicted - acked;
    && SentIds(sent) == acked + buffered + lost
    && acked !! buffered !! lost
    && pending.Keys == buffered + lost
    && |sent| == |acked| + |outgoing| + |lost|
    && |pending| == |outgoing| + |lost|
  }

  /** Conservation: after any run. */
  lemma SenderConservation(base: int, clock: int, start: Rto.Settled, run: seq<Action>)
    requires Legal(Init(base, clock, start), run)
    ensures var s := After(Init(base, clock, start), run);
      && Balanced(s.sent, s.snd.outgoing, s.snd.pending, s.acked, s.evicted)
      && |s.snd.outgoing| <= OUTGOING_MESSAGE_BUFFER_CAPACITY
      && (forall i, j :: 0 <= i < j < |s.snd.outgoing| ==>
            s.snd.outgoing[i].sequenceNumber < s.snd.outgoing[j].sequenceNumber)
  {
    EveryRunKeepsInv(base, clock, start, run);
    var s := After(Init(base, clock, start), run);
    Balance(s.base, s.snd.sendSeqNum, s.sent, s.snd.outgoing, s.snd.pending, s.acked, s.evicted);
  }

  lemma Balance(base: int, next: int, sent: seq<Message>, outgoing: seq<StreamingMessage>,
                pending: map<MessageId, PendingMessage>, acked: set<MessageId>, evicted: set<MessageId>)
    requires Numbered(base, next, sent) && BufferOk(base, sent, outgoing)
    requires Conserved(sent, outgoing, acked, evicted) && PendingOk(sent, pending, acked)
    ensures Balanced(sent, outgoing, pending, acked, evicted)
  {
    Split(base, sent, outgoing, acked, evicted);
    PendingIsUnacked(sent, pending, acked);
    SplitCounts(base, next, sent, outgoing, acked, evicted - acked);
    assert |pending.Keys| == |pending|;
  }

  lemma SplitCounts(base: int, next: int, sent: seq<Message>, outgoing: seq<StreamingMessage>,
                    acked: set<MessageId>, lost: set<MessageId>)
    requires Numbered(base, next, sent) && BufferOk(base, sent, outgoing)
    requires SentIds(sent) == acked + BufferIds(outgoing) + lost && acked !! BufferIds(outgoing) !! lost
    ensures |sent| == |acked| + |outgoing| + |lost|
    ensures |BufferIds(outgoing) + lost| == |outgoing| + |lost|
  {
    SentIdsCount(sent);
    BufferIdsDistinct(base, next, sent, outgoing);
    BufferIdsCount(outgoing);
    Counts(acked, BufferIds(outgoing), lost);
  }

  lemma Counts<T>(a: set<T>, b: set<T>, c: set<T>)
    requires a !! b !! c
    ensures |a + b + c| == |a| + |b| + |c| && |b + c| == |b| + |c|
  {
    assert |(a + b) + c| == |a + b| + |c|;
  }

  lemma PendingIsUnacked(sent: seq<Message>, pending: map<MessageId, PendingMessage>, acked: set<MessageId>)
    requires PendingOk(sent, pending, acked)
    ensures pending.Keys == SentIds(sent) - acked
  {
    forall id | id in SentIds(sent) ensures id in pending <==> id !in acked {
      SentAt(sent, id);
      var i :| 0 <= i < |sent| && sent[i].id == id;
    }
  }

  /* ---------- resends and measurements ---------- */

  /** After any run only the front entry has ever been resent, no message was transmitted more than 3001
      times, and the timeout is within 10 ms and 1 s. */
  lemma ResendsAreBounded(base: int, clock: int, start: Rto.Settled, run: seq<Action>)
    requires Legal(Init(base, clock, start), run)
    ensures var s := After(Init(base, clock, start), run);
      && (forall i :: 0 < i < |s.snd.outgoing| ==> s.snd.outgoing[i].resendAttempt == 0)
      && (forall i :: 0 <= i < |s.snd.outgoing| ==> s.snd.outgoing[i].resendAttempt <= RESEND_MAX_ATTEMPT)
      && (forall id <- s.transmissions :: s.transmissions[id] <= RESEND_MAX_ATTEMPT + 1)
      && (forall i :: 0 <= i < |s.sent| ==> s.sent[i].id in s.transmissions)
      && Rto.TimeoutInBounds(s.snd.estimator)
  {
    EveryRunKeepsInv(base, clock, start, run);
    var s := After(Init(base, clock, start), run);
    forall i | 0 <= i < |s.snd.outgoing|
      ensures s.snd.outgoing[i].resendAttempt <= RESEND_MAX_ATTEMPT
    {
      assert Counted(s.snd.outgoing[i], s.resends, s.sentAt, s.clock);
    }
  }

  /** Karn's rule over whole runs: the estimator is exactly the fold of the recorded measurements, each
      taken once, from a message that was transmitted at most once in total and has never been resent. */
  lemma MeasurementsAreUnambiguous(base: int, clock: int, start: Rto.Settled, run: seq<Action>)
    requires Legal(Init(base, clock, start), run)
    ensures var s := After(Init(base, clock, start), run);
      && s.snd.estimator == Rto.UpdateAll(start, Millis(s.samples))
      && (forall i :: 0 <= i < |s.samples| ==>
            && s.samples[i].id in s.acked
            && Count(s.resends, s.samples[i].id) == 0
            && Count(s.transmissions, s.samples[i].id) <= 1)
      && (forall i, j :: 0 <= i < j < |s.samples| ==> s.samples[i].id != s.samples[j].id)
  {
    EveryRunKeepsInv(base, clock, start, run);
    RunKeepsStart(Init(base, clock, start), run);
  }
}
